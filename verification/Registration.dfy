// Safety of registration over every run of the protocol: who holds which module id.
module Registration {
  import opened Common
  import opened Registry
  import opened Messages
  import opened Protocol

  // ---------------------------------------------------------------- the invariant

  // The ids assigned by messages still on their way to wrapper w: all issued to w, each
  // greater than the one before.
  ghost predicate FreshIds(up: seq<Up>, from: int, home: map<int, int>, w: int, name: Str) {
    up == [] ||
    match up[0]
    case AssignId(id, name') =>
      from < id && id in home && home[id] == w && name' == name && FreshIds(up[1..], id, home, w, name)
    case _ => FreshIds(up[1..], from, home, w, name)
  }

  // An id byte in a message from wrapper w was issued to w, and w has processed its assignment.
  ghost predicate Processed(id: int, last: int, home: map<int, int>, w: int) {
    id <= last && id in home && home[id] == w
  }

  ghost predicate DownOk(m: Down, last: int, home: map<int, int>, w: int, name: Str) {
    match m
    case DeclareModule(name') => name' == name
    case Expose(id, _) => Processed(id, last, home, w)
    case Update(id, _) => id == IdByte(UNASSIGNED) || Processed(id, last, home, w)
    case ModuleShutdown(id) => id == IdByte(UNASSIGNED) || Processed(id, last, home, w)
  }

  ghost predicate AllDownOk(down: seq<Down>, last: int, home: map<int, int>, w: int, name: Str) {
    forall k :: 0 <= k < |down| ==> DownOk(down[k], last, home, w, name)
  }

  ghost predicate EntryOk(entry: Option<int>, last: int) {
    entry == None || entry == Some(UNASSIGNED) || (entry == Some(last) && last > 0)
  }

  ghost predicate LinkOk(home: map<int, int>, w: int, name: Str, entry: Option<int>, last: int,
                         up: seq<Up>, down: seq<Down>)
  {
    && FreshIds(up, last, home, w, name)
    && AllDownOk(down, last, home, w, name)
    && (last == 0 || (0 < last < 256 && Processed(last, last, home, w)))
    && EntryOk(entry, last)
  }

  ghost predicate LinkAt(n: Net, l: Link) {
    var wr := n.wrappers(l.w);
    LinkOk(n.servers(l.s).home, l.w, wr.name, Entry(wr, l.s), Last(wr, l.s), n.up(l), n.down(l))
  }

  // A stub has issued the ids up to nextObjId, each to a wrapper, and every registered module
  // bears the name of the wrapper it was issued to.
  ghost predicate ServerOk(sv: Server, wrappers: int -> Wrapper) {
    && Consistent(sv.reg)
    && (forall id :: id in sv.home <==> 1 <= id < sv.reg.nextObjId)
    && (forall id :: HasId(sv.reg, id) ==> id in sv.home && NameOf(sv.reg, id) == wrappers(sv.home[id]).name)
  }

  ghost predicate LinksOk(n: Net) {
    forall l :: LinkAt(n, l)
  }

  ghost predicate ServersOk(n: Net) {
    forall s :: ServerOk(n.servers(s), n.wrappers)
  }

  ghost predicate Inv(n: Net) {
    LinksOk(n) && ServersOk(n)
  }

  // ---------------------------------------------------------------- queues

  lemma {:induction false} FreshPlain(up: seq<Up>, from: int, home: map<int, int>, w: int, name: Str, m: Up)
    requires FreshIds(up, from, home, w, name) && !m.AssignId?
    ensures FreshIds(up + [m], from, home, w, name)
  {
    if up != [] {
      assert (up + [m])[0] == up[0] && (up + [m])[1..] == up[1..] + [m];
      FreshPlain(up[1..], if up[0].AssignId? then up[0].id else from, home, w, name, m);
    }
  }

  lemma {:induction false} FreshNext(up: seq<Up>, from: int, home: map<int, int>, w: int, name: Str, id: Byte)
    requires FreshIds(up, from, home, w, name)
    requires from < id && forall k :: k in home ==> k < id
    ensures FreshIds(up + [AssignId(id, name)], from, home[id := w], w, name)
  {
    var m := AssignId(id, name);
    if up != [] {
      assert (up + [m])[0] == up[0] && (up + [m])[1..] == up[1..] + [m];
      FreshNext(up[1..], if up[0].AssignId? then up[0].id else from, home, w, name, id);
    } else {
      assert (up + [m])[1..] == [];
    }
  }

  lemma {:induction false} FreshGrows(up: seq<Up>, from: int, home: map<int, int>, home': map<int, int>, w: int, name: Str)
    requires FreshIds(up, from, home, w, name)
    requires forall k :: k in home ==> k in home' && home'[k] == home[k]
    ensures FreshIds(up, from, home', w, name)
  {
    if up != [] {
      FreshGrows(up[1..], if up[0].AssignId? then up[0].id else from, home, home', w, name);
    }
  }

  lemma LinkGrows(home: map<int, int>, home': map<int, int>, w: int, name: Str, entry: Option<int>, last: int,
                  up: seq<Up>, down: seq<Down>)
    requires LinkOk(home, w, name, entry, last, up, down)
    requires forall k :: k in home ==> k in home' && home'[k] == home[k]
    ensures LinkOk(home', w, name, entry, last, up, down)
  {
    FreshGrows(up, last, home, home', w, name);
    forall k | 0 <= k < |down|
      ensures DownOk(down[k], last, home', w, name)
    {
      assert DownOk(down[k], last, home, w, name);
    }
  }

  lemma DownPlain(down: seq<Down>, m: Down, last: int, home: map<int, int>, w: int, name: Str)
    requires AllDownOk(down, last, home, w, name) && DownOk(m, last, home, w, name)
    ensures AllDownOk(down + [m], last, home, w, name)
  {
  }

  // ---------------------------------------------------------------- a stub's step

  lemma ServerReceiveOk(sv: Server, wrappers: int -> Wrapper, w: int, m: Down)
    requires ServerOk(sv, wrappers)
    requires m.DeclareModule? ==> m.name == wrappers(w).name
    ensures var r := ServerReceive(sv, w, m);
            && ServerOk(r.server, wrappers)
            && (forall id :: id in sv.home ==> id in r.server.home && r.server.home[id] == sv.home[id])
            && (r.replies == [] ==> r.server.home == sv.home)
            && (r.replies != [] ==> sv.reg.nextObjId <= 255 && r.replies == [AssignId(sv.reg.nextObjId, wrappers(w).name)]
                                    && r.server.home == sv.home[sv.reg.nextObjId := w])
  {
    var sv' := ServerReceive(sv, w, m).server;
    match m {
      case DeclareModule(name) =>
        DeclareRegisters(sv.reg, name, 0);
        forall id | HasId(sv'.reg, id)
          ensures id in sv'.home && NameOf(sv'.reg, id) == wrappers(sv'.home[id]).name
        {
          DeclareRegisters(sv.reg, name, id);
        }
      case ModuleShutdown(b) =>
        DeleteRemoves(sv.reg, Masked(b), 0);
        forall id | HasId(sv'.reg, id)
          ensures HasId(sv.reg, id) && NameOf(sv'.reg, id) == NameOf(sv.reg, id)
        {
          DeleteRemoves(sv.reg, Masked(b), id);
        }
      case _ =>
    }
  }

  lemma ServerStepOwnLink(sv: Server, wrappers: int -> Wrapper, l: Link, up: seq<Up>, down: seq<Down>)
    requires ServerOk(sv, wrappers) && down != []
    requires var wr := wrappers(l.w);
             LinkOk(sv.home, l.w, wr.name, Entry(wr, l.s), Last(wr, l.s), up, down)
    ensures var r, wr := ServerReceive(sv, l.w, down[0]), wrappers(l.w);
            LinkOk(r.server.home, l.w, wr.name, Entry(wr, l.s), Last(wr, l.s), up + r.replies, down[1..])
  {
    var r, wr, m := ServerReceive(sv, l.w, down[0]), wrappers(l.w), down[0];
    var last, next := Last(wr, l.s), sv.reg.nextObjId;
    assert DownOk(m, last, sv.home, l.w, wr.name);
    ServerReceiveOk(sv, wrappers, l.w, m);
    LinkGrows(sv.home, r.server.home, l.w, wr.name, Entry(wr, l.s), last, up, down);
    assert forall k :: 0 <= k < |down[1..]| ==> down[1..][k] == down[k + 1];
    if r.replies == [] {
      assert up + [] == up;
    } else {
      FreshNext(up, last, sv.home, l.w, wr.name, next);
    }
  }

  lemma ServerStepKeeps(n: Net, l: Link)
    requires Inv(n) && n.down(l) != []
    ensures Inv(ServerStepOn(n, l))
  {
    var n', sv, m := ServerStepOn(n, l), n.servers(l.s), n.down(l)[0];
    var sv' := ServerReceive(sv, l.w, m).server;
    assert LinkAt(n, l) && ServerOk(sv, n.wrappers);
    assert DownOk(m, Last(n.wrappers(l.w), l.s), sv.home, l.w, n.wrappers(l.w).name);
    ServerReceiveOk(sv, n.wrappers, l.w, m);
    ServerStepOwnLink(sv, n.wrappers, l, n.up(l), n.down(l));
    forall l' ensures LinkAt(n', l') {
      assert LinkAt(n, l');
      var wr := n.wrappers(l'.w);
      if l' != l && l'.s == l.s {
        LinkGrows(sv.home, sv'.home, l'.w, wr.name, Entry(wr, l'.s), Last(wr, l'.s), n.up(l'), n.down(l'));
      }
    }
    forall s ensures ServerOk(n'.servers(s), n'.wrappers) {
      assert ServerOk(n.servers(s), n.wrappers);
    }
  }

  // ---------------------------------------------------------------- a wrapper's step

  lemma WrapperStepOwnLink(home: map<int, int>, wr: Wrapper, l: Link, up: seq<Up>, down: seq<Down>)
    requires up != [] && LinkOk(home, l.w, wr.name, Entry(wr, l.s), Last(wr, l.s), up, down)
    ensures var r := WrapperReceive(wr, l.s, up[0]);
            LinkOk(home, l.w, wr.name, Entry(r.wrapper, l.s), Last(r.wrapper, l.s), up[1..], down + r.replies)
  {
    var m, last := up[0], Last(wr, l.s);
    assert down + [] == down;
    match m {
      case AssignId(id, name) =>
        assert AllDownOk(down, id, home, l.w, wr.name) by {
          assert forall k :: 0 <= k < |down| ==> DownOk(down[k], last, home, l.w, wr.name);
        }
      case _ =>
    }
  }

  // A message from one server changes nothing a wrapper knows of another.
  lemma WrapperReceiveLocal(wr: Wrapper, s: int, m: Up, s': int)
    ensures var wr' := WrapperReceive(wr, s, m).wrapper;
            && wr'.name == wr.name && |wr'.values| == |wr.values|
            && (s' != s ==> Entry(wr', s') == Entry(wr, s') && Last(wr', s') == Last(wr, s'))
  {
  }

  // Stubs that keep their modules and wrappers that keep their names stay in order.
  lemma ServersFrame(n: Net, n': Net)
    requires ServersOk(n)
    requires forall s :: n'.servers(s).reg == n.servers(s).reg && n'.servers(s).home == n.servers(s).home
    requires forall w :: n'.wrappers(w).name == n.wrappers(w).name
    ensures ServersOk(n')
  {
    forall s ensures ServerOk(n'.servers(s), n'.wrappers) {
      var sv := n.servers(s);
      assert ServerOk(sv, n.wrappers);
      forall id | HasId(sv.reg, id)
        ensures NameOf(sv.reg, id) == n'.wrappers(sv.home[id]).name
      {
        var w := sv.home[id];
        assert NameOf(sv.reg, id) == n.wrappers(w).name == n'.wrappers(w).name;
      }
    }
  }

  lemma ReceivedKeeps(n: Net, l: Link)
    requires Inv(n) && n.up(l) != []
    ensures Inv(Received(n, l))
  {
    var n', wr, m := Received(n, l), n.wrappers(l.w), n.up(l)[0];
    assert LinkAt(n, l);
    WrapperStepOwnLink(n.servers(l.s).home, wr, l, n.up(l), n.down(l));
    forall l' ensures LinkAt(n', l') {
      assert LinkAt(n, l');
      WrapperReceiveLocal(wr, l.s, m, l'.s);
    }
    forall w ensures n'.wrappers(w).name == n.wrappers(w).name {
      WrapperReceiveLocal(wr, l.s, m, l.s);
    }
    ServersFrame(n, n');
  }

  lemma PublishKeeps(n: Net, w: int, index: nat)
    requires Inv(n) && index < |n.wrappers(w).values|
    ensures Inv(PublishAll(n, w, index))
  {
    var n', wr := PublishAll(n, w, index), n.wrappers(w);
    forall l ensures LinkAt(n', l) {
      assert LinkAt(n, l);
      assert n.down(l) + [] == n.down(l);
      if l.w == w && l.s in wr.servers {
        var m := Update(IdByte(wr.servers[l.s]), Note(index, wr.values[index]));
        DownPlain(n.down(l), m, Last(wr, l.s), n.servers(l.s).home, w, wr.name);
      }
    }
    ServersFrame(n, n');
  }

  lemma QuitKeeps(n: Net, w: int)
    requires Inv(n)
    ensures Inv(QuitOn(n, w))
  {
    var n', wr := QuitOn(n, w), n.wrappers(w);
    forall l ensures LinkAt(n', l) {
      assert LinkAt(n, l);
      assert n.down(l) + [] == n.down(l);
      if l.w == w && l.s in wr.servers {
        DownPlain(n.down(l), ModuleShutdown(IdByte(wr.servers[l.s])), Last(wr, l.s), n.servers(l.s).home, w, wr.name);
      }
    }
    ServersFrame(n, n');
  }

  // ---------------------------------------------------------------- other steps

  lemma SendKeeps(n: Net, l: Link, m: Up)
    requires Inv(n) && !m.AssignId?
    ensures Inv(SendUp(n, l, [m]))
  {
    var n', wr := SendUp(n, l, [m]), n.wrappers(l.w);
    assert LinkAt(n, l);
    FreshPlain(n.up(l), Last(wr, l.s), n.servers(l.s).home, l.w, wr.name, m);
    forall l' ensures LinkAt(n', l') {
      assert LinkAt(n, l');
    }
    ServersFrame(n, n');
  }

  // A stub may change its mirrors and lose modules.
  lemma ReplaceServerKeeps(n: Net, s: int, sv: Server)
    requires Inv(n) && ServerOk(sv, n.wrappers) && sv.home == n.servers(s).home
    ensures Inv(n.(servers := Put(n.servers, s, sv)))
  {
    var n' := n.(servers := Put(n.servers, s, sv));
    forall l ensures LinkAt(n', l) {
      assert LinkAt(n, l);
    }
    forall s' ensures ServerOk(n'.servers(s'), n'.wrappers) {
      assert ServerOk(n.servers(s'), n.wrappers);
    }
  }

  lemma SetAttributeKeeps(n: Net, s: int, id: int, note: Note, arrives: Value, noCallback: bool)
    requires Inv(n)
    ensures Inv(SetAttributeOn(n, s, id, note, arrives, noCallback))
  {
    var sv, m := n.servers(s), CallSet(IdByte(id), Note(note.index, arrives));
    var n1 := SendUp(n, Link(s, Home(sv, id)), [m]);
    SendKeeps(n, Link(s, Home(sv, id)), m);
    assert ServerOk(n1.servers(s), n1.wrappers);
    ReplaceServerKeeps(n1, s, sv.(mirrors := sv.mirrors[id := ApplyNote(Mirror(sv, id), note)]));
  }

  lemma DisconnectKeeps(n: Net, s: int, id: int)
    requires Inv(n)
    ensures Inv(DisconnectOn(n, s, id))
  {
    var sv := n.servers(s);
    var sv' := sv.(reg := Delete(sv.reg, id));
    assert ServerOk(sv, n.wrappers);
    DeleteRemoves(sv.reg, id, 0);
    forall k | HasId(sv'.reg, k)
      ensures HasId(sv.reg, k) && NameOf(sv'.reg, k) == NameOf(sv.reg, k)
    {
      DeleteRemoves(sv.reg, id, k);
    }
    ReplaceServerKeeps(n, s, sv');
    SendKeeps(n.(servers := Put(n.servers, s, sv')), Link(s, Home(sv, id)), ServerShutdown);
  }

  lemma AdvertiseKeeps(n: Net, l: Link)
    requires Inv(n)
    ensures Inv(SendDown(n, l, [DeclareModule(n.wrappers(l.w).name)]))
  {
    var wr := n.wrappers(l.w);
    var n' := SendDown(n, l, [DeclareModule(wr.name)]);
    assert LinkAt(n, l);
    DownPlain(n.down(l), DeclareModule(wr.name), Last(wr, l.s), n.servers(l.s).home, l.w, wr.name);
    forall l' ensures LinkAt(n', l') {
      assert LinkAt(n, l');
    }
    ServersFrame(n, n');
  }

  lemma LocalWriteKeeps(n: Net, w: int, note: Note)
    requires Inv(n) && note.index < |n.wrappers(w).values|
    ensures Inv(n.(wrappers := Put(n.wrappers, w, Written(n.wrappers(w), note))))
  {
    var n' := n.(wrappers := Put(n.wrappers, w, Written(n.wrappers(w), note)));
    forall l ensures LinkAt(n', l) {
      assert LinkAt(n, l);
    }
    ServersFrame(n, n');
  }

  lemma StepKeeps(n: Net, a: Action)
    requires Inv(n) && Can(n, a)
    ensures Inv(Perform(n, a))
  {
    match a
    case Discover(l) => SendKeeps(n, l, Discovery);
    case Advertise(l) => AdvertiseKeeps(n, l);
    case AtServer(l) => ServerStepKeeps(n, l);
    case AtWrapper(l) =>
      ReceivedKeeps(n, l);
      var announce := WrapperReceive(n.wrappers(l.w), l.s, n.up(l)[0]).announce;
      if announce.Some? {
        PublishKeeps(Received(n, l), l.w, announce.value);
      }
    case SetAttribute(s, id, note, arrives, noCallback) => SetAttributeKeeps(n, s, id, note, arrives, noCallback);
    case Disconnect(s, id) => DisconnectKeeps(n, s, id);
    case LocalWrite(w, note) => LocalWriteKeeps(n, w, note);
    case Publish(w, index) => PublishKeeps(n, w, index);
    case Quit(w) => QuitKeeps(n, w);
  }

  // ---------------------------------------------------------------- every run

  lemma InitialInv(n: Net)
    requires Initial(n)
    ensures Inv(n)
  {
  }

  lemma {:induction false} RunKeeps(n: Net, run: seq<Action>)
    requires Inv(n) && CanRun(n, run)
    ensures Inv(After(n, run))
    decreases |run|
  {
    if run != [] {
      StepKeeps(n, run[0]);
      RunKeeps(Perform(n, run[0]), run[1..]);
    }
  }

  // In every run, the id a wrapper holds for a stub is -1 or one that this stub issued to it;
  // so two wrappers never hold the same id of the same stub.
  lemma HeldIdsWereIssued(n: Net, run: seq<Action>, s: int, w: int)
    requires Initial(n) && CanRun(n, run)
    ensures var sv, entry := After(n, run).servers(s), Entry(After(n, run).wrappers(w), s);
            || entry == None || entry == Some(UNASSIGNED)
            || (1 <= entry.value < sv.reg.nextObjId <= 256 && Home(sv, entry.value) == w)
  {
    InitialInv(n);
    RunKeeps(n, run);
    var n' := After(n, run);
    assert LinkAt(n', Link(s, w)) && ServerOk(n'.servers(s), n'.wrappers);
  }

  // In every run, a set request for a live module is carried out only by the wrapper whose
  // declaration was given that id, and the stub has the module under this wrapper's name.
  lemma CallsReachTheirModule(n: Net, run: seq<Action>, l: Link)
    requires Initial(n) && CanRun(n, run)
    requires var n' := After(n, run);
             && n'.up(l) != [] && n'.up(l)[0].CallSet?
             && WrapperReceive(n'.wrappers(l.w), l.s, n'.up(l)[0]).announce.Some?
    ensures var n' := After(n, run);
            var sv, id := n'.servers(l.s), n'.up(l)[0].id;
            Home(sv, id) == l.w && (HasId(sv.reg, id) ==> NameOf(sv.reg, id) == n'.wrappers(l.w).name)
  {
    InitialInv(n);
    RunKeeps(n, run);
    var n' := After(n, run);
    assert LinkAt(n', l) && ServerOk(n'.servers(l.s), n'.wrappers);
  }
}
