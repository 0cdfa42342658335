// The network of byte messages does what the protocol machine does, over every run: no step
// leaves the message or the containers, and the objects in Python show the wrappers' values.
module ByteRuns {
  import opened Common
  import opened Registry
  import opened Messages
  import opened Calls
  import opened Refinement
  import opened ByteQueues
  import opened Simulation
  import opened StubSteps
  import opened StubStatements
  import opened WrapperSteps
  import P = Protocol
  import G = Registration
  import C = Coherence
  import W = WrapperModel
  import S = StubModel
  import B = ByteNetwork

  // ---------------------------------------------------------------- every step

  lemma AtStubSim(base: Published, b: B.Net, n: P.Net, l: P.Link) returns (steps: seq<P.Action>, n': P.Net)
    requires Sim(base, b, n) && G.Inv(n) && C.FewIds(n, l.s) && 0 <= l.s < 16 && b.down(l) != []
    ensures S.ProcessInput(b.stubs(l.s), b.down(l)[0]).Some?
    ensures Follows(n, steps, n') && Sim(base, B.StubStepOn(b, l), n')
  {
    hide Sim, Follows, S.ProcessInput, StubSim, WrapperSim, UpMatches, G.Inv, Stutter, IsDown;
    AtLink(base, b, n, l);
    var w0, done := base(l.w), b.exposed(l);
    if Stutter(w0, b.down(l)[0], done) && DownMatches(w0, b.down(l)[1..], n.down(l), done) {
      steps, n' := [], n;
      FollowsNone(n);
      StutterSim(base, b, n, l);
    } else {
      steps, n' := [P.AtServer(l)], P.ServerStepOn(n, l);
      FollowsOne(n, P.AtServer(l));
      MachineMessageSim(base, b, n, l);
    }
  }

  lemma AtWrapperSim(base: Published, b: B.Net, n: P.Net, l: P.Link, beh: W.Behaviour)
    returns (steps: seq<P.Action>, n': P.Net)
    requires Sim(base, b, n) && G.Inv(n) && B.Can(b, B.AtWrapper(l, beh))
    ensures W.ProcessInput(b.wrappers(l.w), b.up(l)[0], beh).Some?
    ensures Follows(n, steps, n') && Sim(base, B.WrapperStepOn(b, l, beh), n')
  {
    hide Sim, Follows, W.ProcessInput, StubSim, WrapperSim, DownMatches, G.Inv, IsCall, IsUp, B.ReturnFits;
    UpAt(base, b, n, l.s, l.w);
    assert l == P.Link(l.s, l.w);
    if IsCall(base(l.w), l.s, b.up(l)[0]) && UpMatches(base(l.w), l.s, b.up(l)[1..], n.up(l)) {
      steps, n' := [], n;
      FollowsNone(n);
      CallSimAtWrapper(base, b, n, l, beh);
    } else {
      MachineRequestSim(base, b, n, l, beh);
      steps, n' := [P.AtWrapper(l)], P.WrapperStepOn(n, l);
      FollowsOne(n, P.AtWrapper(l));
    }
  }

  // The stub's id is its number.
  lemma StubNumber(base: Published, b: B.Net, n: P.Net, s: int)
    requires Sim(base, b, n) && 0 <= s < 16
    ensures b.stubs(s).serverId == s && n.servers(s).reg.nextObjId == b.stubs(s).nextObjId
  {
    AtLink(base, b, n, P.Link(s, 0));
  }

  // Every step of the network of bytes is defined, and is one step of the machine or none.
  lemma StepSim(base: Published, b: B.Net, n: P.Net, a: B.Action) returns (steps: seq<P.Action>, n': P.Net)
    requires Sim(base, b, n) && G.Inv(n) && B.Can(b, a) && B.Calm(b, a)
    ensures B.Defined(b, a) && Follows(n, steps, n') && Sim(base, B.Perform(b, a), n')
  {
    hide Sim, Follows, G.Inv, P.ServerStepOn, P.WrapperStepOn, S.ProcessInput, W.ProcessInput, S.SetAttribute, S.PyCall,
         S.ShutdownModule, W.UpdateAttribute, W.Farewells, B.StubStepOn, B.WrapperStepOn, B.AttemptOn,
         B.ReturnFits, Wireable;
    match a {
      case Discover(l) =>
        DiscoverSim(base, b, n, l);
        FollowsOne(n, P.Discover(l));
        steps, n' := [P.Discover(l)], P.SendUp(n, l, [P.Discovery]);
      case Advertise(l) =>
        AdvertiseSim(base, b, n, l);
        FollowsOne(n, P.Advertise(l));
        steps, n' := [P.Advertise(l)], P.SendDown(n, l, [P.DeclareModule(n.wrappers(l.w).name)]);
      case AtStub(l) =>
        StubNumber(base, b, n, l.s);
        steps, n' := AtStubSim(base, b, n, l);
      case AtWrapper(l, beh) => steps, n' := AtWrapperSim(base, b, n, l, beh);
      case SetAttribute(s, i, name, value) =>
        StubNumber(base, b, n, s);
        steps, n' := SetSim(base, b, n, s, i, name, value);
      case CallMethod(s, i, j, values) =>
        StubNumber(base, b, n, s);
        CallSim(base, b, n, s, i, j, values);
        FollowsNone(n);
        steps, n' := [], n;
      case Disconnect(s, i) =>
        var id := b.stubs(s).modules[i].id;
        DisconnectSim(base, b, n, s, i);
        FollowsOne(n, P.Disconnect(s, id));
        steps, n' := [P.Disconnect(s, id)], P.DisconnectOn(n, s, id);
      case LocalWrite(w, k, value) =>
        var step := P.LocalWrite(w, P.Note(k, value));
        LocalWriteSim(base, b, n, w, k, value);
        FollowsOne(n, step);
        steps, n' := [step], P.Perform(n, step);
      case Publish(w, k) =>
        PublishSim(base, b, n, w, k);
        FollowsOne(n, P.Publish(w, k));
        steps, n' := [P.Publish(w, k)], P.PublishAll(n, w, k);
      case Quit(w) =>
        QuitSim(base, b, n, w);
        FollowsOne(n, P.Quit(w));
        steps, n' := [P.Quit(w)], P.QuitOn(n, w);
    }
  }

  // ---------------------------------------------------------------- every run

  // The machine in which nothing has happened.
  ghost function Still(b: B.Net): P.Net {
    P.Net(s => P.NEW_SERVER, w => P.NewWrapper(b.wrappers(w).name, Values(b.wrappers(w).attributes)), l => [], l => [])
  }

  lemma InitialSim(b: B.Net)
    requires B.Initial(b)
    ensures P.Initial(Still(b)) && Sim(b.wrappers, b, Still(b))
  {
    hide B.Fit, UpMatches, DownMatches;
    var n := Still(b);
    StillIsInitial(b);
    forall w
      ensures WrapperIn(b.wrappers, b, n, w)
    {
      assert B.WrapperFresh(b, w);
      FreshWrapper(b.wrappers(w));
    }
    forall s
      ensures StubIn(b.wrappers, b, n, s)
    {
      assert B.StubFresh(b, s);
    }
    forall l
      ensures LinkIn(b.wrappers, b, n, l)
    {
      assert B.LinkFresh(b, l) && B.StubFresh(b, l.s);
      NothingUp(b.wrappers(l.w), l.s);
      NothingDown(b.wrappers(l.w), 0);
    }
  }

  lemma StillIsInitial(b: B.Net)
    ensures P.Initial(Still(b))
  {
    var n := Still(b);
    forall w
      ensures n.wrappers(w) == P.NewWrapper(n.wrappers(w).name, n.wrappers(w).values)
    {
      assert n.wrappers(w) == P.NewWrapper(b.wrappers(w).name, Values(b.wrappers(w).attributes));
    }
  }

  lemma FreshWrapper(w: W.Wrapper)
    requires B.Fit(w) && w.serverMap == []
    ensures SameShape(w, w) && W.Valid(w) && WrapperShows(w, P.NewWrapper(w.name, Values(w.attributes)))
  {
    assert WithValues(w.attributes, Values(w.attributes)) == w.attributes;
  }

  lemma {:induction false} FollowsBoth(n: P.Net, first: seq<P.Action>, n1: P.Net, second: seq<P.Action>, n2: P.Net)
    requires Follows(n, first, n1) && Follows(n1, second, n2)
    ensures Follows(n, first + second, n2)
    decreases |first|
  {
    hide P.Perform, P.Can;
    if first == [] {
      assert first + second == second;
    } else {
      assert (first + second)[0] == first[0] && (first + second)[1..] == first[1..] + second;
      FollowsBoth(P.Perform(n, first[0]), first[1..], n1, second, n2);
    }
  }

  // The first k steps of a run.
  lemma {:induction false} PrefixSim(r: B.Run, k: nat) returns (steps: seq<P.Action>, n: P.Net)
    requires B.IsRun(r) && B.Uncrowded(r) && k < |r.nets|
    ensures Follows(Still(B.Start(r)), steps, n) && Sim(B.Start(r).wrappers, r.nets[k], n) && G.Inv(n)
    decreases k
  {
    hide Sim, G.Inv, B.Perform, B.Can, B.Defined, B.Calm, B.Initial, Follows;
    var first := Still(B.Start(r));
    InitialSim(B.Start(r));
    G.InitialInv(first);
    if k == 0 {
      FollowsNone(first);
      steps, n := [], first;
    } else {
      assert B.StepAt(r, k - 1) && B.CalmAt(r, k - 1);
      var before, n1 := PrefixSim(r, k - 1);
      var last;
      last, n := StepSim(B.Start(r).wrappers, r.nets[k - 1], n1, r.actions[k - 1]);
      FollowsKeeps(n1, last, n);
      FollowsBoth(first, before, n1, last, n);
      steps := before + last;
    }
  }

  lemma FollowsKeeps(n: P.Net, steps: seq<P.Action>, n': P.Net)
    requires Follows(n, steps, n') && G.Inv(n)
    ensures G.Inv(n')
  {
    G.RunKeeps(n, steps);
  }

  // Every run of the network of bytes in which no crowded stub takes a message is a run of the
  // machine: it starts where nothing has happened and ends in the state the network is in.
  lemma RunsAreTheMachines(r: B.Run) returns (steps: seq<P.Action>)
    requires B.IsRun(r) && B.Uncrowded(r)
    ensures P.Initial(Still(B.Start(r))) && P.CanRun(Still(B.Start(r)), steps)
    ensures Sim(B.Start(r).wrappers, B.End(r), P.After(Still(B.Start(r)), steps))
  {
    hide Sim, B.Initial, B.Uncrowded, G.Inv;
    InitialSim(B.Start(r));
    var n;
    steps, n := PrefixSim(r, |r.actions|);
  }

  // After every such run, whatever a party does next has a next state: no step reads beyond a
  // message, walks past the end of a container or calls what is not there.
  lemma EveryStepIsDefined(r: B.Run, a: B.Action)
    requires B.IsRun(r) && B.Uncrowded(r) && B.Can(B.End(r), a) && B.Calm(B.End(r), a)
    ensures exists next :: B.Step(B.End(r), a, next)
  {
    hide Sim, B.Initial, B.Uncrowded, G.Inv, B.Perform;
    var steps, n := PrefixSim(r, |r.actions|);
    var steps', n' := StepSim(B.Start(r).wrappers, B.End(r), n, a);
    assert B.Step(B.End(r), a, B.Perform(B.End(r), a));
  }

  // ---------------------------------------------------------------- coherence

  // A message that would assign this id, or set attribute k of the module that has it.
  predicate Concerns(message: seq<Byte>, id: int, k: nat) {
    |message| >= 2 && message[1] == id &&
    (|| message[0] / 16 == MODULE_ASSIGN_ID
     || (&& message[0] / 16 in [CALL_ATTR_METD, CALL_ATTR_METD_NOCB]
         && ParseIndex(message[2..]).Some? && ParseIndex(message[2..]).value.0 == k))
  }

  // A message that would give the module its interface, or change its copy of attribute k.
  predicate Changes(message: seq<Byte>, id: int, k: nat) {
    |message| >= 3 && message[1] == id &&
    (|| message[0] / 16 == ATTR_METD_EXPOSE
     || (&& message[0] / 16 == ATTR_VALUE_UPDATE
         && ParseIndex(message[3..]).Some? && ParseIndex(message[3..]).value.0 == k))
  }

  // The module at place i belongs to a running wrapper, and nothing about its attribute k is on
  // its way in either direction. Anything else may be.
  ghost predicate Quiet(b: B.Net, l: P.Link, i: nat, k: nat) {
    && 0 <= l.s < 16 && b.alive(l.w)
    && i < |b.stubs(l.s).modules| && B.HomeOf(b.home(l.s), b.stubs(l.s).modules[i].id) == l.w
    && (forall m :: m in b.up(l) ==> !Concerns(m, b.stubs(l.s).modules[i].id, k))
    && (forall m :: m in b.down(l) ==> !Changes(m, b.stubs(l.s).modules[i].id, k))
  }

  // The object at place i has the wrapper's attribute k, with its name and its value.
  ghost predicate Shows(b: B.Net, l: P.Link, i: nat, k: nat)
    requires i < |b.stubs(l.s).modules| && k < |b.wrappers(l.w).attributes|
  {
    var o, w := b.stubs(l.s).modules[i], b.wrappers(l.w);
    && o.name == w.name && |o.attrs| == |w.attributes|
    && o.attrs[k].name == w.attributes[k].name && o.attrs[k].value == w.attributes[k].value
  }

  // After every such run, whenever nothing about an attribute is on its way between a stub and a
  // wrapper, the Python object of the wrapper's module has it at its place, under its name and
  // with its value, unless the program assigned it without announcing it.
  lemma ObjectsAreCoherent(r: B.Run, l: P.Link, i: nat, k: nat)
    requires B.IsRun(r) && B.Uncrowded(r) && B.Few(B.End(r), l.s) && Quiet(B.End(r), l, i, k)
    requires k < |B.End(r).wrappers(l.w).attributes| && k !in B.End(r).dirty(l.w)
    ensures Shows(B.End(r), l, i, k)
  {
    hide Sim, B.Initial, B.Uncrowded, G.Inv;
    var first, b := Still(B.Start(r)), B.End(r);
    InitialSim(B.Start(r));
    G.InitialInv(first);
    var steps := RunsAreTheMachines(r);
    G.RunKeeps(first, steps);
    var n := P.After(first, steps);
    QuietIsSettled(B.Start(r).wrappers, b, n, l, i, k);
    C.MirrorsAreCoherent(first, steps, l, b.stubs(l.s).modules[i].id, k);
    CoherentIsSeen(B.Start(r).wrappers, b, n, l, i, k);
  }

  lemma {:induction false} QuietUp(base: W.Wrapper, s: int, queue: seq<seq<Byte>>, ms: seq<P.Up>, id: int, k: nat)
    requires UpMatches(base, s, queue, ms) && B.Fit(base) && 0 <= s < 16
    requires forall m :: m in queue ==> !Concerns(m, id, k)
    ensures !C.AssignPending(ms, id) && !C.SetPending(ms, id, k)
  {
    hide IsCall, IsUp, Concerns, B.Fit;
    if queue != [] {
      assert queue[0] in queue;
      if IsCall(base, s, queue[0]) && UpMatches(base, s, queue[1..], ms) {
        QuietUp(base, s, queue[1..], ms, id, k);
      } else {
        UnconcernedUp(base, s, queue[0], ms[0], id, k);
        QuietUp(base, s, queue[1..], ms[1..], id, k);
      }
    }
  }

  lemma UnconcernedUp(base: W.Wrapper, s: int, message: seq<Byte>, m: P.Up, id: int, k: nat)
    requires IsUp(base, s, message, m) && B.Fit(base) && 0 <= s < 16 && !Concerns(message, id, k)
    ensures !C.IsSet(m, id, k) && !(m.AssignId? && m.id == id)
  {
    hide ParseIndex, PackValue, HasType, Wireable, PackShortString;
    match m {
      case CallSet(_, note) =>
        PackedFit(note.value);
        CallArrives(if message[0] / 16 == CALL_ATTR_METD_NOCB then CALL_ATTR_METD_NOCB else CALL_ATTR_METD, s, m.id,
                    note.index, PackValue(note.value));
      case _ =>
    }
  }

  lemma {:induction false} QuietDown(base: W.Wrapper, queue: seq<seq<Byte>>, ms: seq<P.Down>, done: int, id: int,
                                     k: nat)
    requires DownMatches(base, queue, ms, done) && B.Fit(base)
    requires forall m :: m in queue ==> !Changes(m, id, k)
    ensures C.NothingComing(ms, id, k)
  {
    hide Stutter, IsDown, Changes, B.Fit;
    if queue != [] {
      assert queue[0] in queue;
      if Stutter(base, queue[0], done) && DownMatches(base, queue[1..], ms, done) {
        QuietDown(base, queue[1..], ms, done, id, k);
      } else {
        UnchangedDown(base, queue[0], ms[0], done, id, k);
        QuietDown(base, queue[1..], ms[1..], NextDone(done, ms[0]), id, k);
      }
    }
  }

  lemma UnchangedDown(base: W.Wrapper, message: seq<Byte>, m: P.Down, done: int, id: int, k: nat)
    requires IsDown(base, message, m, done) && B.Fit(base) && !Changes(message, id, k)
    ensures C.About(m, id) ==> m.Update? && m.note.index != k
  {
    hide ParseIndex, PackValue, HasType, Wireable, ExposeBody, CallBody, PackShortString, PackLongString;
    match m {
      case Update(_, note) =>
        PackedFit(note.value);
        ResponseArrives(ATTR_VALUE_UPDATE, message[0] % 16, m.id, NO_ERRORS, note.index, PackValue(note.value));
      case _ =>
    }
  }

  // For the machine nothing about the attribute is on its way either, and the module is served.
  lemma QuietIsSettled(base: Published, b: B.Net, n: P.Net, l: P.Link, i: nat, k: nat)
    requires Sim(base, b, n) && Quiet(b, l, i, k) && B.Few(b, l.s)
    requires k < |b.wrappers(l.w).attributes| && k !in b.dirty(l.w)
    ensures C.Settled(n, l, b.stubs(l.s).modules[i].id, k) && C.FewIds(n, l.s)
  {
    hide Sim, Consistent, Mirrors, B.Fit, SameShape, W.Valid, UpMatches, DownMatches, Concerns, Changes;
    AtLink(base, b, n, l);
    RegisteredHere(b.stubs(l.s), n.servers(l.s), i);
    QuietUp(base(l.w), l.s, b.up(l), n.up(l), b.stubs(l.s).modules[i].id, k);
    QuietDown(base(l.w), b.down(l), n.down(l), b.exposed(l), b.stubs(l.s).modules[i].id, k);
  }

  // What the machine's mirror shows, the object has.
  lemma CoherentIsSeen(base: Published, b: B.Net, n: P.Net, l: P.Link, i: nat, k: nat)
    requires Sim(base, b, n) && G.Inv(n) && Quiet(b, l, i, k)
    requires C.Settled(n, l, b.stubs(l.s).modules[i].id, k) && C.Coherent(n, l, b.stubs(l.s).modules[i].id, k)
    ensures k < |b.wrappers(l.w).attributes| && Shows(b, l, i, k)
  {
    hide Sim, Consistent, B.Fit, W.Valid, G.Inv;
    var st, sv, o := b.stubs(l.s), n.servers(l.s), b.stubs(l.s).modules[i];
    AtLink(base, b, n, l);
    assert MirrorShown(st.modules, sv, i);
    assert ObjectAt(base, b.exposed, b.home(l.s), st, i);
    assert SameAttribute(o.attrs[k], base(l.w).attributes[k]);
    C.LiveId(n, l, o.id);
    ListedName(st, sv, i);
  }

  lemma ListedName(st: S.Stub, sv: P.Server, i: nat)
    requires StubShows(st, sv) && i < |st.modules|
    ensures HasId(sv.reg, st.modules[i].id) && NameOf(sv.reg, st.modules[i].id) == st.modules[i].name
  {
    var j := S.PlaceOf(st.modules, st.modules[i].id);
    NotBeforePlace(st.modules, i);
    DistinctIds(st, i, j);
  }

  // ---------------------------------------------------------------- what is left unannounced

  // The wrapper of w announces attribute k in this step, of its own accord or for a request.
  ghost predicate AnnouncesAt(r: B.Run, i: nat, w: int, k: nat)
    requires B.IsRun(r) && i < |r.actions|
  {
    var b, a := r.nets[i], r.actions[i];
    || (a.Publish? && a.w == w && a.k == k)
    || (a.AtWrapper? && a.l.w == w && b.up(a.l) != [] && k in B.Announces(b.wrappers(w), b.up(a.l)[0]))
  }

  // The wrapped program assigned attribute k in step i, and it was not announced before step n.
  ghost predicate LeftAt(r: B.Run, w: int, k: nat, i: nat, n: nat)
    requires B.IsRun(r) && n <= |r.actions|
  {
    && i < n && r.actions[i].LocalWrite? && r.actions[i].w == w && r.actions[i].k == k
    && forall j :: i < j < n ==> !AnnouncesAt(r, j, w, k)
  }

  // The attributes that coherence leaves out are those that the program assigned and nobody has
  // announced since.
  lemma {:induction false} DirtyIsUnannounced(r: B.Run, w: int, k: nat, n: nat)
    requires B.IsRun(r) && n <= |r.actions|
    ensures k in r.nets[n].dirty(w) <==> exists i: nat :: LeftAt(r, w, k, i, n)
    decreases n
  {
    hide B.Initial, W.ProcessInput, S.ProcessInput, S.SetAttribute, S.PyCall, S.ShutdownModule, W.UpdateAttribute,
         W.Farewells, B.Announces, B.ReturnFits, AnnouncesAt;
    if n == 0 {
      FreshIsClean(r.nets[0], w);
    } else {
      DirtyIsUnannounced(r, w, k, n - 1);
      assert B.StepAt(r, n - 1);
      DirtyStep(r, w, k, n - 1);
      var a := r.actions[n - 1];
      if k in r.nets[n].dirty(w) {
        if a.LocalWrite? && a.w == w && a.k == k {
          assert LeftAt(r, w, k, n - 1, n);
        } else {
          var i: nat :| LeftAt(r, w, k, i, n - 1);
          assert LeftAt(r, w, k, i, n);
        }
      }
      forall i: nat | LeftAt(r, w, k, i, n)
        ensures k in r.nets[n].dirty(w)
      {
        assert i < n - 1 ==> LeftAt(r, w, k, i, n - 1) && !AnnouncesAt(r, n - 1, w, k);
      }
    }
  }

  lemma DirtyStep(r: B.Run, w: int, k: nat, i: nat)
    requires B.IsRun(r) && i < |r.actions|
    ensures var a := r.actions[i];
            k in r.nets[i + 1].dirty(w)
            <==> (a.LocalWrite? && a.w == w && a.k == k) || (k in r.nets[i].dirty(w) && !AnnouncesAt(r, i, w, k))
  {
    hide B.Initial, W.ProcessInput, S.ProcessInput, S.SetAttribute, S.PyCall, S.ShutdownModule, W.UpdateAttribute,
         W.Farewells, B.Announces, B.ReturnFits;
    assert B.StepAt(r, i);
  }

  lemma FreshIsClean(b: B.Net, w: int)
    requires B.Initial(b)
    ensures b.dirty(w) == {}
  {
    assert B.WrapperFresh(b, w);
  }
}
