// Why the coherence of mirrors is claimed for fourteen ids: a run with fifteen that breaks it.
module FifteenModules {
  import opened Common
  import opened Registry
  import opened Messages
  import opened Protocol
  import opened Registration
  import opened Coherence

  // Wrappers 1 to 15 bear different names; wrapper 16 bears the name of wrapper 1.
  function CrowdName(w: int): Str {
    if 1 <= w <= 15 then [w] else [1]
  }

  function Member(w: int): Wrapper {
    NewWrapper(CrowdName(w), [IntVal(w)])
  }

  ghost function Crowd(): (n: Net)
    ensures Initial(n)
  {
    Net(s => NEW_SERVER, w => Member(w), l => [], l => [])
  }

  lemma {:induction false} RunExtends(n: Net, run: seq<Action>, a: Action)
    requires CanRun(n, run) && Can(After(n, run), a)
    ensures CanRun(n, run + [a]) && After(n, run + [a]) == Perform(After(n, run), a)
    decreases |run|
  {
    if run == [] {
      assert (run + [a])[0] == a && (run + [a])[1..] == [];
    } else {
      assert (run + [a])[0] == run[0] && (run + [a])[1..] == run[1..] + [a];
      RunExtends(Perform(n, run[0]), run[1..], a);
    }
  }

  // Stub 0 has registered wrappers 1 to k under the ids 1 to k; the assignments are on their way.
  ghost predicate Joined(n: Net, k: nat) {
    var sv := n.servers(0);
    && Consistent(sv.reg) && sv.reg.nextObjId == k + 1
    && (forall j: Byte :: HasName(sv.reg, [j]) <==> 1 <= j <= k)
    && (forall id :: 1 <= id <= k ==> HasId(sv.reg, id) && Home(sv, id) == id && Mirror(sv, id) == [])
    && (forall s :: s != 0 ==> n.servers(s) == NEW_SERVER)
    && (forall w :: n.wrappers(w) == Member(w))
    && (forall l :: n.down(l) == [])
    && (forall l: Link :: n.up(l) == if l.s == 0 && 1 <= l.w <= k then [AssignId(l.w, [l.w])] else [])
  }

  lemma JoinOne(n: Net, k: nat)
    requires Joined(n, k) && k < 15
    ensures var n1 := SendDown(n, Link(0, k + 1), [DeclareModule([k + 1])]);
            n1.down(Link(0, k + 1)) != [] && Joined(ServerStepOn(n1, Link(0, k + 1)), k + 1)
  {
    var l, name: Str := Link(0, k + 1), [k + 1];
    var n1 := SendDown(n, l, [DeclareModule(name)]);
    assert n1.down(l) == [DeclareModule(name)] && n1.down(l)[1..] == [];
    var n2, sv := ServerStepOn(n1, l), n.servers(0);
    var sv' := ServerReceive(sv, k + 1, DeclareModule(name)).server;
    assert !HasName(sv.reg, name) && Accepts(sv.reg, name);
    assert n2.servers(0) == sv';
    Appended(sv.reg.modules, 0, sv.reg.nextObjId, Module(k + 1, name));
    forall j: Byte
      ensures HasName(sv'.reg, [j]) <==> 1 <= j <= k + 1
    {
      assert [j] == name <==> j == k + 1;
    }
    forall id | 1 <= id <= k + 1
      ensures HasId(sv'.reg, id) && Home(sv', id) == id && Mirror(sv', id) == []
    {
      DeclareRegisters(sv.reg, name, id);
    }
    assert n2.up(l) == [AssignId(k + 1, name)];
  }

  lemma {:induction false} JoinMany(k: nat) returns (run: seq<Action>)
    requires k <= 15
    ensures CanRun(Crowd(), run) && Joined(After(Crowd(), run), k)
  {
    if k == 0 {
      run := [];
    } else {
      run := JoinMany(k - 1);
      JoinOne(After(Crowd(), run), k - 1);
      RunExtends(Crowd(), run, Advertise(Link(0, k)));
      run := run + [Advertise(Link(0, k))];
      RunExtends(Crowd(), run, AtServer(Link(0, k)));
      run := run + [AtServer(Link(0, k))];
    }
  }

  // The part of the network that the rest of the run is about: module 15 of stub 0, and the
  // links of wrappers 15 and 16 with that stub.
  datatype Stage = Stage(mirror: seq<Value>, w15: Wrapper, up15: seq<Up>, down15: seq<Down>,
                         w16: Wrapper, up16: seq<Up>, down16: seq<Down>)

  ghost predicate At(n: Net, g: Stage) {
    && HasId(n.servers(0).reg, 15) && HasName(n.servers(0).reg, [1])
    && Home(n.servers(0), 15) == 15 && Mirror(n.servers(0), 15) == g.mirror
    && (forall s :: n.servers(s).reg.nextObjId <= 16)
    && n.wrappers(15) == g.w15 && n.up(Link(0, 15)) == g.up15 && n.down(Link(0, 15)) == g.down15
    && n.wrappers(16) == g.w16 && n.up(Link(0, 16)) == g.up16 && n.down(Link(0, 16)) == g.down16
  }

  lemma Start(n: Net)
    requires Joined(n, 15)
    ensures At(n, Stage([], Member(15), [AssignId(15, [15])], [], Member(16), [], []))
  {
    assert HasName(n.servers(0).reg, [1]);
  }

  lemma Wrapper15Reads(n: Net, g: Stage)
    requires At(n, g) && g.up15 == [AssignId(15, [15])] && g.w15.name == [15] && g.down15 == []
    ensures At(Received(n, Link(0, 15)),
               g.(w15 := WrapperReceive(g.w15, 0, g.up15[0]).wrapper, up15 := [], down15 := [Expose(15, g.w15.values)]))
  {
    assert n.up(Link(0, 15))[1..] == [];
  }

  lemma Server15Reads(n: Net, g: Stage)
    requires At(n, g) && g.down15 == [Expose(15, g.w15.values)] && g.mirror == [] && g.up15 == []
    ensures At(ServerStepOn(n, Link(0, 15)), g.(mirror := g.w15.values, down15 := []))
  {
    assert n.down(Link(0, 15))[1..] == [];
  }

  lemma Wrapper16Reads(n: Net, g: Stage)
    requires At(n, g) && g.up16 == [Discovery] && g.w16 == Member(16) && g.down16 == []
    ensures At(Received(n, Link(0, 16)),
               g.(w16 := WrapperReceive(g.w16, 0, Discovery).wrapper, up16 := [], down16 := [DeclareModule([1])]))
  {
    assert n.up(Link(0, 16))[1..] == [];
  }

  lemma Wrapper16Publishes(n: Net, g: Stage)
    requires At(n, g) && g.w16.servers == map[0 := UNASSIGNED] && g.w16.values == [IntVal(16)]
    ensures At(PublishAll(n, 16, 0),
               g.(w16 := Announced(g.w16, 0), down16 := g.down16 + [Update(255, Note(0, IntVal(16)))]))
  {
  }

  lemma Server16Refuses(n: Net, g: Stage)
    requires At(n, g) && g.up16 == [] && g.down16 != [] && g.down16[0] == DeclareModule([1])
    ensures At(ServerStepOn(n, Link(0, 16)), g.(down16 := g.down16[1..]))
  {
  }

  // The byte of an unassigned wrapper is masked to 15.
  lemma Server16Misroutes(n: Net, g: Stage)
    requires At(n, g) && g.up16 == [] && g.down16 == [Update(255, Note(0, IntVal(16)))] && |g.mirror| == 1
    ensures At(ServerStepOn(n, Link(0, 16)), g.(mirror := [IntVal(16)], down16 := []))
  {
    assert n.down(Link(0, 16))[1..] == [];
    assert Masked(255) == 15;
  }

  lemma Extend(run: seq<Action>, a: Action) returns (run': seq<Action>)
    requires CanRun(Crowd(), run) && Can(After(Crowd(), run), a)
    ensures CanRun(Crowd(), run') && After(Crowd(), run') == Perform(After(Crowd(), run), a)
  {
    RunExtends(Crowd(), run, a);
    run' := run + [a];
  }

  function Fifteenth(): Wrapper {
    WrapperReceive(Member(15), 0, AssignId(15, [15])).wrapper
  }

  function Sixteenth(): Wrapper {
    WrapperReceive(Member(16), 0, Discovery).wrapper
  }

  lemma ExposeFifteen() returns (run: seq<Action>)
    ensures CanRun(Crowd(), run)
    ensures At(After(Crowd(), run), Stage([IntVal(15)], Fifteenth(), [], [], Member(16), [], []))
  {
    run := JoinMany(15);
    var g := Stage([], Member(15), [AssignId(15, [15])], [], Member(16), [], []);
    Start(After(Crowd(), run));
    Wrapper15Reads(After(Crowd(), run), g);
    run := Extend(run, AtWrapper(Link(0, 15)));
    Server15Reads(After(Crowd(), run), g.(w15 := Fifteenth(), up15 := [], down15 := [Expose(15, [IntVal(15)])]));
    run := Extend(run, AtServer(Link(0, 15)));
  }

  lemma DiscoverSixteen() returns (run: seq<Action>)
    ensures CanRun(Crowd(), run)
    ensures At(After(Crowd(), run), Stage([IntVal(15)], Fifteenth(), [], [], Sixteenth(), [], [DeclareModule([1])]))
  {
    run := ExposeFifteen();
    run := Extend(run, Discover(Link(0, 16)));
    Wrapper16Reads(After(Crowd(), run), Stage([IntVal(15)], Fifteenth(), [], [], Member(16), [Discovery], []));
    run := Extend(run, AtWrapper(Link(0, 16)));
  }

  lemma RefuseSixteen() returns (run: seq<Action>)
    ensures CanRun(Crowd(), run)
    ensures At(After(Crowd(), run), Stage([IntVal(15)], Fifteenth(), [], [], Announced(Sixteenth(), 0), [],
                                          [Update(255, Note(0, IntVal(16)))]))
  {
    run := DiscoverSixteen();
    var g := Stage([IntVal(15)], Fifteenth(), [], [], Sixteenth(), [], [DeclareModule([1])]);
    Wrapper16Publishes(After(Crowd(), run), g);
    run := Extend(run, Publish(16, 0));
    var down := [DeclareModule([1])] + [Update(255, Note(0, IntVal(16)))];
    Server16Refuses(After(Crowd(), run), g.(w16 := Announced(Sixteenth(), 0), down16 := down));
    run := Extend(run, AtServer(Link(0, 16)));
    assert down[1..] == [Update(255, Note(0, IntVal(16)))];
  }

  // With fifteen ids issued a mirror can differ from its wrapper although nothing is on its
  // way and nothing was left unannounced: wrapper 16 is refused, and what it announces while
  // it has no id ends up in module 15.
  lemma FifteenAreTooMany() returns (run: seq<Action>)
    ensures Initial(Crowd()) && CanRun(Crowd(), run)
    ensures var n, l := After(Crowd(), run), Link(0, 15);
            && n.servers(0).reg.nextObjId <= 16
            && Settled(n, l, 15, 0) && !Coherent(n, l, 15, 0)
            && n.up(l) == [] && n.down(l) == []
  {
    run := RefuseSixteen();
    var g := Stage([IntVal(15)], Fifteenth(), [], [], Announced(Sixteenth(), 0), [], [Update(255, Note(0, IntVal(16)))]);
    Server16Misroutes(After(Crowd(), run), g);
    run := Extend(run, AtServer(Link(0, 16)));
  }

  // In every run in which the stub of the module has issued at most k ids, every settled
  // attribute of the module is coherent.
  ghost predicate CoherentUpTo(k: nat) {
    forall n: Net, run, l: Link, id, index: nat ::
      Initial(n) && CanRun(n, run) && After(n, run).servers(l.s).reg.nextObjId <= k + 1 && Settled(After(n, run), l, id, index)
      ==> Coherent(After(n, run), l, id, index)
  }

  // Fourteen ids are the most for which mirrors are coherent.
  lemma CoherentUpToFourteen(k: nat)
    ensures CoherentUpTo(k) <==> k <= 14
  {
    if k <= 14 {
      forall n: Net, run, l: Link, id, index: nat |
        Initial(n) && CanRun(n, run) && After(n, run).servers(l.s).reg.nextObjId <= k + 1 && Settled(After(n, run), l, id, index)
        ensures Coherent(After(n, run), l, id, index)
      {
        MirrorsAreCoherent(n, run, l, id, index);
      }
    } else {
      var run := FifteenAreTooMany();
      assert Settled(After(Crowd(), run), Link(0, 15), 15, 0);
    }
  }
}
