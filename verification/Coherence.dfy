// Coherence of the attribute mirrors over every run of the protocol.
module Coherence {
  import opened Common
  import opened Registry
  import opened Messages
  import opened Protocol
  import opened Registration

  // With at most fourteen ids issued, an id byte survives the stub's mask, and the byte of an
  // unassigned wrapper (255) is masked to an id that no module has.
  const MAX_ROUTED_ID := 14

  // ---------------------------------------------------------------- what is in flight

  ghost predicate About(m: Down, id: int) {
    (m.Expose? || m.Update?) && m.id == id
  }

  // The mirror once everything on its way to it has arrived.
  ghost function Effective(mirror: seq<Value>, down: seq<Down>, id: int): seq<Value>
    decreases |down|
  {
    if down == [] then mirror
    else Effective(if About(down[0], id) then ApplyDown(mirror, down[0]) else mirror, down[1..], id)
  }

  ghost function NotesFor(down: seq<Down>, id: int): seq<Note> {
    if down == [] then []
    else (if About(down[0], id) then Noted(down[0]) else []) + NotesFor(down[1..], id)
  }

  ghost predicate IsSet(m: Up, id: int, index: int) {
    m.CallSet? && m.id == id && m.note.index == index
  }

  ghost predicate SetPending(up: seq<Up>, id: int, index: int) {
    up != [] && (IsSet(up[0], id, index) || SetPending(up[1..], id, index))
  }

  ghost predicate SetsInRange(up: seq<Up>, size: nat) {
    up == [] || ((up[0].CallSet? ==> up[0].note.index < size) && SetsInRange(up[1..], size))
  }

  // What a wrapper will hold for a server once everything from it has been processed.
  ghost function NextEntry(entry: Option<int>, m: Up): Option<int> {
    match m
    case Discovery => if entry == None then Some(UNASSIGNED) else entry
    case AssignId(id, _) => Some(id)
    case CallSet(_, _) => entry
    case ServerShutdown => None
  }

  ghost function FinalEntry(up: seq<Up>, entry: Option<int>): Option<int>
    decreases |up|
  {
    if up == [] then entry else FinalEntry(up[1..], NextEntry(entry, up[0]))
  }

  // ---------------------------------------------------------------- the invariant

  // All that bears on one module of a stub and its wrapper.
  datatype View = View(
    last: int, entry: Option<int>, told: seq<Note>, values: seq<Value>, dirty: set<int>,
    mirror: seq<Value>, seen: seq<Note>, up: seq<Up>, down: seq<Down>)

  ghost function ViewOf(sv: Server, wr: Wrapper, s: int, up: seq<Up>, down: seq<Down>, id: int): View {
    View(Last(wr, s), Entry(wr, s), Told(wr, s), wr.values, wr.dirty, Mirror(sv, id), Seen(sv, id), up, down)
  }

  // Attribute by attribute, the mirror will show the wrapper's value, unless that was written
  // without being announced or a set request for it is on its way.
  ghost predicate Synced(v: View, id: int) {
    var eff := Effective(v.mirror, v.down, id);
    && |eff| == |v.values|
    && forall i :: 0 <= i < |eff| && i !in v.dirty && !SetPending(v.up, id, i) ==> eff[i] == v.values[i]
  }

  ghost predicate ModuleOk(v: View, id: int) {
    && FinalEntry(v.up, v.entry) == Some(id)
    && if id > v.last then v.mirror == [] && v.seen == []
       else Synced(v, id) && v.told == v.seen + NotesFor(v.down, id)
  }

  ghost predicate Live(n: Net, l: Link, id: int) {
    HasId(n.servers(l.s).reg, id) && Home(n.servers(l.s), id) == l.w && n.wrappers(l.w).alive
  }

  ghost function ViewAt(n: Net, l: Link, id: int): View {
    ViewOf(n.servers(l.s), n.wrappers(l.w), l.s, n.up(l), n.down(l), id)
  }

  // Stub z has issued at most fourteen ids; the other stubs may have issued more.
  ghost predicate FewIds(n: Net, z: int) {
    n.servers(z).reg.nextObjId <= MAX_ROUTED_ID + 1
  }

  ghost predicate ModulesOk(n: Net, z: int) {
    forall l: Link, id :: l.s == z && Live(n, l, id) ==> ModuleOk(ViewAt(n, l, id), id)
  }

  ghost predicate RangesOk(n: Net, z: int) {
    forall l: Link :: l.s == z && n.wrappers(l.w).alive ==> SetsInRange(n.up(l), |n.wrappers(l.w).values|)
  }

  // The invariant of the modules of stub z.
  ghost predicate CoInv(n: Net, z: int) {
    Inv(n) && ModulesOk(n, z) && RangesOk(n, z)
  }

  // ---------------------------------------------------------------- queues

  lemma {:induction false} EffectiveSnoc(mirror: seq<Value>, down: seq<Down>, id: int, m: Down)
    ensures Effective(mirror, down + [m], id)
         == if About(m, id) then ApplyDown(Effective(mirror, down, id), m) else Effective(mirror, down, id)
    decreases |down|
  {
    if down == [] {
      assert (down + [m])[1..] == [];
    } else {
      assert (down + [m])[0] == down[0] && (down + [m])[1..] == down[1..] + [m];
      EffectiveSnoc(if About(down[0], id) then ApplyDown(mirror, down[0]) else mirror, down[1..], id, m);
    }
  }

  lemma {:induction false} NotesSnoc(down: seq<Down>, id: int, m: Down)
    ensures NotesFor(down + [m], id) == NotesFor(down, id) + (if About(m, id) then Noted(m) else [])
  {
    if down == [] {
      assert (down + [m])[1..] == [];
    } else {
      assert (down + [m])[0] == down[0] && (down + [m])[1..] == down[1..] + [m];
      NotesSnoc(down[1..], id, m);
      ConcatAssoc(if About(down[0], id) then Noted(down[0]) else [], NotesFor(down[1..], id),
                  if About(m, id) then Noted(m) else []);
    }
  }

  lemma {:induction false} NothingAbout(mirror: seq<Value>, down: seq<Down>, id: int)
    requires forall k :: 0 <= k < |down| ==> !About(down[k], id)
    ensures Effective(mirror, down, id) == mirror && NotesFor(down, id) == []
  {
    if down != [] {
      NothingAbout(mirror, down[1..], id);
    }
  }

  lemma {:induction false} EffectiveGrows(mirror: seq<Value>, down: seq<Down>, id: int)
    ensures |mirror| <= |Effective(mirror, down, id)|
    decreases |down|
  {
    if down != [] {
      EffectiveGrows(if About(down[0], id) then ApplyDown(mirror, down[0]) else mirror, down[1..], id);
    }
  }

  // Two mirrors that differ at one place stay the same everywhere else.
  lemma {:induction false} EffectiveElsewhere(a: seq<Value>, b: seq<Value>, down: seq<Down>, id: int, index: int)
    requires |a| == |b| && forall i :: 0 <= i < |a| && i != index ==> a[i] == b[i]
    ensures var ea, eb := Effective(a, down, id), Effective(b, down, id);
            |ea| == |eb| && forall i :: 0 <= i < |ea| && i != index ==> ea[i] == eb[i]
    decreases |down|
  {
    if down != [] {
      var m := down[0];
      EffectiveElsewhere(if About(m, id) then ApplyDown(a, m) else a, if About(m, id) then ApplyDown(b, m) else b,
                         down[1..], id, index);
    }
  }

  lemma {:induction false} FinalSnoc(up: seq<Up>, entry: Option<int>, m: Up)
    ensures FinalEntry(up + [m], entry) == NextEntry(FinalEntry(up, entry), m)
    decreases |up|
  {
    if up == [] {
      assert (up + [m])[1..] == [];
    } else {
      assert (up + [m])[0] == up[0] && (up + [m])[1..] == up[1..] + [m];
      FinalSnoc(up[1..], NextEntry(entry, up[0]), m);
    }
  }

  // An id that will be held is held now, or its assignment is on its way.
  lemma {:induction false} FinalFresh(up: seq<Up>, entry: Option<int>, from: int, home: map<int, int>, w: int,
                                      name: Str, id: int)
    requires FreshIds(up, from, home, w, name) && FinalEntry(up, entry) == Some(id) && id > 0
    ensures entry == Some(id) || id > from
    decreases |up|
  {
    if up != [] {
      var from' := if up[0].AssignId? then up[0].id else from;
      FinalFresh(up[1..], NextEntry(entry, up[0]), from', home, w, name, id);
    }
  }

  lemma {:induction false} PendingSnoc(up: seq<Up>, id: int, index: int, m: Up)
    ensures SetPending(up + [m], id, index) <==> SetPending(up, id, index) || IsSet(m, id, index)
  {
    if up == [] {
      assert (up + [m])[1..] == [];
    } else {
      assert (up + [m])[0] == up[0] && (up + [m])[1..] == up[1..] + [m];
      PendingSnoc(up[1..], id, index, m);
    }
  }

  lemma {:induction false} RangeSnoc(up: seq<Up>, size: nat, m: Up)
    requires SetsInRange(up, size) && (m.CallSet? ==> m.note.index < size)
    ensures SetsInRange(up + [m], size)
  {
    if up == [] {
      assert (up + [m])[1..] == [];
    } else {
      assert (up + [m])[0] == up[0] && (up + [m])[1..] == up[1..] + [m];
      RangeSnoc(up[1..], size, m);
    }
  }

  // ---------------------------------------------------------------- steps on one view

  // Something is sent to the module that is not about it.
  lemma OtherDown(v: View, id: int, m: Down)
    requires ModuleOk(v, id) && !About(m, id)
    ensures ModuleOk(v.(down := v.down + [m]), id)
  {
    EffectiveSnoc(v.mirror, v.down, id, m);
    NotesSnoc(v.down, id, m);
  }

  // The wrapper announces the value of one attribute to the server.
  lemma PublishView(v: View, id: int, index: nat, home: map<int, int>, w: int, name: Str)
    requires ModuleOk(v, id) && index < |v.values| && 0 < id < 256
    requires FreshIds(v.up, v.last, home, w, name)
    ensures var note := Note(index, v.values[index]);
            ModuleOk(v.(dirty := v.dirty - {index},
                        told := if v.entry == None then v.told else v.told + [note],
                        down := v.down + (match v.entry
                                          case None => []
                                          case Some(e) => [Update(IdByte(e), note)])), id)
  {
    var note := Note(index, v.values[index]);
    assert v.down + [] == v.down;
    FinalFresh(v.up, v.entry, v.last, home, w, name, id);
    if v.entry.Some? {
      var m := Update(IdByte(v.entry.value), note);
      EffectiveSnoc(v.mirror, v.down, id, m);
      NotesSnoc(v.down, id, m);
      ConcatAssoc(v.seen, NotesFor(v.down, id), [note]);
    }
  }

  // A set request of the module is sent, and perhaps already written into its own mirror.
  lemma SetView(v: View, id: int, note: Note, sent: Value, noCallback: bool)
    requires ModuleOk(v, id) && 0 < id < 256 && note.index < |v.mirror|
    ensures ModuleOk(v.(mirror := if noCallback then ApplyNote(v.mirror, note) else v.mirror,
                        up := v.up + [CallSet(IdByte(id), Note(note.index, sent))]), id)
    ensures note.index < |v.values|
  {
    var m := CallSet(IdByte(id), Note(note.index, sent));
    FinalSnoc(v.up, v.entry, m);
    EffectiveGrows(v.mirror, v.down, id);
    EffectiveElsewhere(v.mirror, ApplyNote(v.mirror, note), v.down, id, note.index);
    forall i | 0 <= i
      ensures SetPending(v.up + [m], id, i) <==> SetPending(v.up, id, i) || i == note.index
    {
      PendingSnoc(v.up, id, i, m);
    }
  }

  // Something else is sent to the wrapper that leaves the entry for this module in place.
  lemma OtherUp(v: View, id: int, m: Up)
    requires ModuleOk(v, id) && NextEntry(Some(id), m) == Some(id) && (m.CallSet? ==> m.id != id)
    ensures ModuleOk(v.(up := v.up + [m]), id)
  {
    FinalSnoc(v.up, v.entry, m);
    forall i | 0 <= i
      ensures SetPending(v.up + [m], id, i) <==> SetPending(v.up, id, i)
    {
      PendingSnoc(v.up, id, i, m);
    }
  }

  // The stub processes the next message.
  lemma ServerView(v: View, id: int)
    requires ModuleOk(v, id) && v.down != []
    requires id > v.last ==> !About(v.down[0], id)
    ensures var m := v.down[0];
            ModuleOk(v.(down := v.down[1..],
                        mirror := if About(m, id) then ApplyDown(v.mirror, m) else v.mirror,
                        seen := if About(m, id) then v.seen + Noted(m) else v.seen), id)
  {
    var m := v.down[0];
    if id <= v.last && About(m, id) {
      ConcatAssoc(v.seen, Noted(m), NotesFor(v.down[1..], id));
    }
  }

  // The wrapper writes one of its attributes without announcing it.
  lemma WriteView(v: View, id: int, note: Note)
    requires ModuleOk(v, id) && note.index < |v.values|
    ensures ModuleOk(v.(values := v.values[note.index := note.value], dirty := v.dirty + {note.index}), id)
  {
  }

  // The wrapper processes a set request. It can refuse only one that is not for this module.
  lemma CallView(v: View, id: int, home: map<int, int>, w: int, name: Str)
    requires ModuleOk(v, id) && id > 0 && v.up != [] && v.up[0].CallSet? && SetsInRange(v.up, |v.values|)
    requires FreshIds(v.up, v.last, home, w, name)
    ensures var note := v.up[0].note;
            if v.entry != Some(v.up[0].id) || note.index >= |v.values| then ModuleOk(v.(up := v.up[1..]), id)
            else ModuleOk(v.(up := v.up[1..], values := v.values[note.index := note.value],
                             dirty := v.dirty + {note.index}), id)
  {
    FinalFresh(v.up, v.entry, v.last, home, w, name, id);
  }

  // The wrapper processes DISCOVERY or SERVER_SHUTDOWN. Neither concerns a module it serves.
  lemma EntryView(v: View, id: int, home: map<int, int>, w: int, name: Str)
    requires ModuleOk(v, id) && id > 0 && v.up != [] && (v.up[0].Discovery? || v.up[0].ServerShutdown?)
    requires FreshIds(v.up, v.last, home, w, name)
    ensures ModuleOk(v.(up := v.up[1..], entry := NextEntry(v.entry, v.up[0])), id)
    ensures NextEntry(v.entry, v.up[0]) != v.entry ==> id > v.last
  {
    FinalFresh(v.up, v.entry, v.last, home, w, name, id);
    FinalFresh(v.up[1..], NextEntry(v.entry, v.up[0]), v.last, home, w, name, id);
  }

  // The wrapper is assigned an id and exposes its attributes.
  lemma AssignView(v: View, id: int, home: map<int, int>, w: int, name: Str)
    requires ModuleOk(v, id) && 0 < id < 255 && v.up != [] && v.up[0].AssignId?
    requires FreshIds(v.up, v.last, home, w, name) && AllDownOk(v.down, v.last, home, w, name)
    ensures var a := v.up[0].id;
            ModuleOk(v.(up := v.up[1..], entry := Some(a), last := a, told := [],
                        down := v.down + [Expose(a, v.values)]), id)
  {
    var a := v.up[0].id;
    FinalFresh(v.up[1..], Some(a), a, home, w, name, id);
    if id == a {
      forall k | 0 <= k < |v.down|
        ensures !About(v.down[k], a)
      {
        assert DownOk(v.down[k], v.last, home, w, name);
      }
      NothingAbout(v.mirror, v.down, a);
      EffectiveSnoc(v.mirror, v.down, a, Expose(a, v.values));
      NotesSnoc(v.down, a, Expose(a, v.values));
    }
  }

  // ---------------------------------------------------------------- facts about the network

  // A live module's id is one its wrapper was given; it fits a byte and survives the mask.
  lemma LiveId(n: Net, l: Link, id: int)
    requires Inv(n) && Live(n, l, id)
    ensures 0 < id < n.servers(l.s).reg.nextObjId <= 256 && id in n.servers(l.s).home
    ensures NameOf(n.servers(l.s).reg, id) == n.wrappers(l.w).name
    ensures LinkAt(n, l)
  {
    assert ServerOk(n.servers(l.s), n.wrappers);
    Registered(n.servers(l.s).reg, id);
  }

  // A wrapper has at most one live module at a stub.
  lemma OneModule(n: Net, l: Link, a: int, b: int)
    requires Inv(n) && Live(n, l, a) && Live(n, l, b)
    ensures a == b
  {
    LiveId(n, l, a);
    LiveId(n, l, b);
    Registered(n.servers(l.s).reg, a);
    Registered(n.servers(l.s).reg, b);
  }

  // What a wrapper sends about a module reaches that module and no other.
  lemma Routed(n: Net, l: Link)
    requires Inv(n) && FewIds(n, l.s) && n.down(l) != []
    ensures var m, sv := n.down(l)[0], n.servers(l.s);
            !m.DeclareModule? && HasId(sv.reg, Masked(m.id)) ==>
              Masked(m.id) == m.id && Home(sv, m.id) == l.w && m.id <= Last(n.wrappers(l.w), l.s)
  {
    var m, sv := n.down(l)[0], n.servers(l.s);
    assert LinkAt(n, l) && ServerOk(sv, n.wrappers);
    assert DownOk(m, Last(n.wrappers(l.w), l.s), sv.home, l.w, n.wrappers(l.w).name);
    if !m.DeclareModule? && HasId(sv.reg, Masked(m.id)) {
      Registered(sv.reg, Masked(m.id));
    }
  }

  // ---------------------------------------------------------------- a stub's step

  // DECLARE of a new name: the new module is empty, and its id is on its way to the wrapper.
  lemma AcceptStep(n: Net, l: Link, l': Link, id: int)
    requires CoInv(n, l'.s) && n.down(l) != [] && n.down(l)[0].DeclareModule?
    requires var reg, name := n.servers(l.s).reg, n.down(l)[0].name; !HasName(reg, name) && Accepts(reg, name)
    requires Live(ServerStepOn(n, l), l', id)
    ensures ModuleOk(ViewAt(ServerStepOn(n, l), l', id), id)
  {
    hide Ordered, FreshIds;
    var sv, wr, m := n.servers(l.s), n.wrappers(l.w), n.down(l)[0];
    assert LinkAt(n, l) && ServerOk(sv, n.wrappers);
    assert DownOk(m, Last(wr, l.s), sv.home, l.w, wr.name);
    DeclareRegisters(sv.reg, m.name, id);
    if l'.s == l.s && id == sv.reg.nextObjId {
      assert l' == l;
      FinalSnoc(n.up(l), Entry(wr, l.s), AssignId(IdByte(id), m.name));
    } else {
      assert Live(n, l', id);
      LiveId(n, l', id);
      if l' == l {
        Registered(sv.reg, id);
        assert false;
      }
    }
  }

  lemma RefuseStep(n: Net, l: Link, l': Link, id: int)
    requires CoInv(n, l'.s) && n.down(l) != [] && n.down(l)[0].DeclareModule?
    requires var reg, name := n.servers(l.s).reg, n.down(l)[0].name; HasName(reg, name) || !Accepts(reg, name)
    requires Live(ServerStepOn(n, l), l', id)
    ensures ModuleOk(ViewAt(ServerStepOn(n, l), l', id), id)
  {
    assert Live(n, l', id);
    assert n.up(l') + [] == n.up(l');
    if l' == l {
      ServerView(ViewAt(n, l, id), id);
    }
  }

  lemma ShutdownStep(n: Net, l: Link, l': Link, id: int)
    requires CoInv(n, l'.s) && n.down(l) != [] && n.down(l)[0].ModuleShutdown?
    requires Live(ServerStepOn(n, l), l', id)
    ensures ModuleOk(ViewAt(ServerStepOn(n, l), l', id), id)
  {
    hide Consistent, FindById, Erase;
    var sv, m := n.servers(l.s), n.down(l)[0];
    assert ServerOk(sv, n.wrappers);
    DeleteRemoves(sv.reg, Masked(m.id), id);
    assert Live(n, l', id);
    assert n.up(l') + [] == n.up(l');
    if l' == l {
      ServerView(ViewAt(n, l, id), id);
    }
  }

  lemma ReceiveValue(sv: Server, w: int, m: Down, id: int)
    requires m.Expose? || m.Update?
    ensures var r := ServerReceive(sv, w, m);
            && r.replies == [] && r.server.reg == sv.reg && r.server.home == sv.home
            && (if Masked(m.id) == id && HasId(sv.reg, id)
                then Mirror(r.server, id) == ApplyDown(Mirror(sv, id), m) && Seen(r.server, id) == Seen(sv, id) + Noted(m)
                else Mirror(r.server, id) == Mirror(sv, id) && Seen(r.server, id) == Seen(sv, id))
  {
  }

  // EXPOSE and updates change the mirror of the module they are about.
  lemma ValueStep(n: Net, l: Link, l': Link, id: int)
    requires CoInv(n, l'.s) && FewIds(n, l'.s) && n.down(l) != [] && (n.down(l)[0].Expose? || n.down(l)[0].Update?)
    requires Live(ServerStepOn(n, l), l', id)
    ensures ModuleOk(ViewAt(ServerStepOn(n, l), l', id), id)
  {
    var sv, m, v, v' := n.servers(l.s), n.down(l)[0], ViewAt(n, l', id), ViewAt(ServerStepOn(n, l), l', id);
    ReceiveValue(sv, l.w, m, id);
    assert Live(n, l', id);
    LiveId(n, l', id);
    if l.s == l'.s {
      Routed(n, l);
    }
    assert n.up(l') + [] == n.up(l');
    if l' == l {
      assert About(m, id) <==> Masked(m.id) == id;
      ServerView(v, id);
      assert v' == v.(down := v.down[1..],
                      mirror := if About(m, id) then ApplyDown(v.mirror, m) else v.mirror,
                      seen := if About(m, id) then v.seen + Noted(m) else v.seen);
    } else {
      assert v' == v;
    }
  }

  lemma ServerStepCo(n: Net, l: Link, z: int)
    requires CoInv(n, z) && FewIds(n, z) && n.down(l) != []
    ensures CoInv(ServerStepOn(n, l), z)
  {
    var n', m, sv := ServerStepOn(n, l), n.down(l)[0], n.servers(l.s);
    ServerStepKeeps(n, l);
    forall l': Link, id | l'.s == z && Live(n', l', id)
      ensures ModuleOk(ViewAt(n', l', id), id)
    {
      match m
      case DeclareModule(name) =>
        if HasName(sv.reg, name) || !Accepts(sv.reg, name) {
          RefuseStep(n, l, l', id);
        } else {
          AcceptStep(n, l, l', id);
        }
      case ModuleShutdown(_) => ShutdownStep(n, l, l', id);
      case _ => ValueStep(n, l, l', id);
    }
    forall l': Link | l'.s == z && n'.wrappers(l'.w).alive
      ensures SetsInRange(n'.up(l'), |n'.wrappers(l'.w).values|)
    {
      var r := ServerReceive(sv, l.w, m);
      assert n.up(l) + [] == n.up(l);
      if r.replies != [] && l' == l {
        RangeSnoc(n.up(l), |n.wrappers(l.w).values|, r.replies[0]);
      }
    }
  }

  // ---------------------------------------------------------------- a wrapper's step

  lemma PublishCo(n: Net, w: int, index: nat, z: int)
    requires CoInv(n, z) && index < |n.wrappers(w).values|
    ensures CoInv(PublishAll(n, w, index), z)
  {
    var n', wr := PublishAll(n, w, index), n.wrappers(w);
    PublishKeeps(n, w, index);
    forall l: Link, id | l.s == z && Live(n', l, id)
      ensures ModuleOk(ViewAt(n', l, id), id)
    {
      assert Live(n, l, id);
      LiveId(n, l, id);
      if l.w == w {
        PublishView(ViewAt(n, l, id), id, index, n.servers(l.s).home, w, wr.name);
        assert n.down(l) + [] == n.down(l);
      }
    }
  }

  // The wrapper's own link, whatever the message is.
  lemma ReceivedOwn(n: Net, l: Link, id: int)
    requires CoInv(n, l.s) && FewIds(n, l.s) && Live(n, l, id) && n.up(l) != []
    ensures ModuleOk(ViewAt(Received(n, l), l, id), id)
  {
    var v, wr, m, home := ViewAt(n, l, id), n.wrappers(l.w), n.up(l)[0], n.servers(l.s).home;
    LiveId(n, l, id);
    assert n.servers(l.s).reg.nextObjId <= MAX_ROUTED_ID + 1;
    assert v.down + [] == v.down;
    match m
    case CallSet(_, _) => CallView(v, id, home, l.w, wr.name);
    case AssignId(_, _) => AssignView(v, id, home, l.w, wr.name);
    case ServerShutdown => EntryView(v, id, home, l.w, wr.name);
    case Discovery =>
      EntryView(v, id, home, l.w, wr.name);
      OtherDown(v.(up := v.up[1..], entry := NextEntry(v.entry, m)), id, DeclareModule(wr.name));
  }

  // What a wrapper's step leaves as it was for every other server.
  lemma ReceivedElsewhere(wr: Wrapper, s: int, m: Up, s': int)
    requires s' != s
    ensures var r := WrapperReceive(wr, s, m);
            && Last(r.wrapper, s') == Last(wr, s') && Entry(r.wrapper, s') == Entry(wr, s')
            && Told(r.wrapper, s') == Told(wr, s')
            && (r.announce == None ==> r.wrapper.values == wr.values && r.wrapper.dirty == wr.dirty)
            && (r.announce.Some? ==> m.CallSet? && m.note.index < |wr.values| && r.wrapper == Written(wr, m.note))
  {
  }

  lemma ReceivedOther(n: Net, l: Link, l': Link, id: int)
    requires n.up(l) != [] && l' != l && ModuleOk(ViewAt(n, l', id), id)
    ensures ModuleOk(ViewAt(Received(n, l), l', id), id)
  {
    var wr, m, v, v' := n.wrappers(l.w), n.up(l)[0], ViewAt(n, l', id), ViewAt(Received(n, l), l', id);
    assert v'.up == v.up && v'.down == v.down;
    if l'.w == l.w {
      ReceivedElsewhere(wr, l.s, m, l'.s);
      if WrapperReceive(wr, l.s, m).announce.Some? {
        WriteView(v, id, m.note);
        assert v' == v.(values := v.values[m.note.index := m.note.value], dirty := v.dirty + {m.note.index});
      } else {
        assert v' == v;
      }
    } else {
      assert v' == v;
    }
  }

  lemma ReceivedCo(n: Net, l: Link, z: int)
    requires CoInv(n, z) && FewIds(n, z) && n.wrappers(l.w).alive && n.up(l) != []
    ensures CoInv(Received(n, l), z)
  {
    var n', wr, m := Received(n, l), n.wrappers(l.w), n.up(l)[0];
    ReceivedKeeps(n, l);
    forall l': Link, id | l'.s == z && Live(n', l', id)
      ensures ModuleOk(ViewAt(n', l', id), id)
    {
      assert Live(n, l', id);
      if l' == l {
        ReceivedOwn(n, l, id);
      } else {
        ReceivedOther(n, l, l', id);
      }
    }
    forall l': Link | l'.s == z && n'.wrappers(l'.w).alive
      ensures SetsInRange(n'.up(l'), |n'.wrappers(l'.w).values|)
    {
      WrapperReceiveLocal(wr, l.s, m, l'.s);
    }
  }

  // ---------------------------------------------------------------- other steps

  lemma SetAttributeCo(n: Net, s: int, id: int, note: Note, arrives: Value, noCallback: bool, z: int)
    requires CoInv(n, z) && FewIds(n, z) && Can(n, SetAttribute(s, id, note, arrives, noCallback))
    ensures CoInv(SetAttributeOn(n, s, id, note, arrives, noCallback), z)
  {
    var n', sv := SetAttributeOn(n, s, id, note, arrives, noCallback), n.servers(s);
    var l, m := Link(s, Home(sv, id)), CallSet(IdByte(id), Note(note.index, arrives));
    SetAttributeKeeps(n, s, id, note, arrives, noCallback);
    forall l': Link, id' | l'.s == z && Live(n', l', id')
      ensures ModuleOk(ViewAt(n', l', id'), id')
    {
      assert Live(n, l', id');
      LiveId(n, l', id');
      if l' == l {
        OneModule(n, l, id, id');
        SetView(ViewAt(n, l, id), id, note, arrives, noCallback);
      }
    }
    forall l': Link | l'.s == z && n'.wrappers(l'.w).alive
      ensures SetsInRange(n'.up(l'), |n'.wrappers(l'.w).values|)
    {
      if l' == l {
        assert Live(n, l, id);
        LiveId(n, l, id);
        SetView(ViewAt(n, l, id), id, note, arrives, noCallback);
        RangeSnoc(n.up(l), |n.wrappers(l.w).values|, m);
      }
    }
  }

  lemma DisconnectCo(n: Net, s: int, id: int, z: int)
    requires CoInv(n, z) && HasId(n.servers(s).reg, id)
    ensures CoInv(DisconnectOn(n, s, id), z)
  {
    var n', sv := DisconnectOn(n, s, id), n.servers(s);
    var l := Link(s, Home(sv, id));
    DisconnectKeeps(n, s, id);
    assert ServerOk(sv, n.wrappers);
    forall l': Link, id' | l'.s == z && Live(n', l', id')
      ensures ModuleOk(ViewAt(n', l', id'), id')
    {
      DeleteRemoves(sv.reg, id, id');
      assert Live(n, l', id');
      if l' == l {
        OneModule(n, l, id, id');
        assert false;
      }
    }
    forall l': Link | l'.s == z && n'.wrappers(l'.w).alive
      ensures SetsInRange(n'.up(l'), |n'.wrappers(l'.w).values|)
    {
      if l' == l {
        RangeSnoc(n.up(l), |n.wrappers(l.w).values|, ServerShutdown);
      }
    }
  }

  lemma DiscoverCo(n: Net, l: Link, z: int)
    requires CoInv(n, z)
    ensures CoInv(SendUp(n, l, [Discovery]), z)
  {
    var n' := SendUp(n, l, [Discovery]);
    SendKeeps(n, l, Discovery);
    forall l': Link, id | l'.s == z && Live(n', l', id)
      ensures ModuleOk(ViewAt(n', l', id), id)
    {
      assert Live(n, l', id);
      if l' == l {
        OtherUp(ViewAt(n, l, id), id, Discovery);
      }
    }
    forall l': Link | l'.s == z && n'.wrappers(l'.w).alive
      ensures SetsInRange(n'.up(l'), |n'.wrappers(l'.w).values|)
    {
      if l' == l {
        RangeSnoc(n.up(l), |n.wrappers(l.w).values|, Discovery);
      }
    }
  }

  lemma AdvertiseCo(n: Net, l: Link, z: int)
    requires CoInv(n, z)
    ensures CoInv(SendDown(n, l, [DeclareModule(n.wrappers(l.w).name)]), z)
  {
    var m := DeclareModule(n.wrappers(l.w).name);
    var n' := SendDown(n, l, [m]);
    AdvertiseKeeps(n, l);
    forall l': Link, id | l'.s == z && Live(n', l', id)
      ensures ModuleOk(ViewAt(n', l', id), id)
    {
      assert Live(n, l', id);
      if l' == l {
        OtherDown(ViewAt(n, l, id), id, m);
      }
    }
  }

  lemma LocalWriteCo(n: Net, w: int, note: Note, z: int)
    requires CoInv(n, z) && note.index < |n.wrappers(w).values|
    ensures CoInv(n.(wrappers := Put(n.wrappers, w, Written(n.wrappers(w), note))), z)
  {
    var n' := n.(wrappers := Put(n.wrappers, w, Written(n.wrappers(w), note)));
    LocalWriteKeeps(n, w, note);
    forall l: Link, id | l.s == z && Live(n', l, id)
      ensures ModuleOk(ViewAt(n', l, id), id)
    {
      assert Live(n, l, id);
      if l.w == w {
        WriteView(ViewAt(n, l, id), id, note);
      }
    }
  }

  lemma QuitCo(n: Net, w: int, z: int)
    requires CoInv(n, z)
    ensures CoInv(QuitOn(n, w), z)
  {
    var n' := QuitOn(n, w);
    QuitKeeps(n, w);
    forall l: Link, id | l.s == z && Live(n', l, id)
      ensures ModuleOk(ViewAt(n', l, id), id)
    {
      assert Live(n, l, id);
    }
  }

  lemma StepCo(n: Net, a: Action, z: int)
    requires CoInv(n, z) && FewIds(n, z) && Can(n, a)
    ensures CoInv(Perform(n, a), z)
  {
    match a
    case Discover(l) => DiscoverCo(n, l, z);
    case Advertise(l) => AdvertiseCo(n, l, z);
    case AtServer(l) => ServerStepCo(n, l, z);
    case AtWrapper(l) =>
      ReceivedCo(n, l, z);
      var announce := WrapperReceive(n.wrappers(l.w), l.s, n.up(l)[0]).announce;
      if announce.Some? {
        PublishCo(Received(n, l), l.w, announce.value, z);
      }
    case SetAttribute(s, id, note, arrives, noCallback) => SetAttributeCo(n, s, id, note, arrives, noCallback, z);
    case Disconnect(s, id) => DisconnectCo(n, s, id, z);
    case LocalWrite(w, note) => LocalWriteCo(n, w, note, z);
    case Publish(w, index) => PublishCo(n, w, index, z);
    case Quit(w) => QuitCo(n, w, z);
  }

  // ---------------------------------------------------------------- every run

  lemma IdsGrow(n: Net, a: Action, s: int)
    requires Inv(n) && Can(n, a)
    ensures n.servers(s).reg.nextObjId <= Perform(n, a).servers(s).reg.nextObjId
  {
  }

  lemma {:induction false} RunCo(n: Net, run: seq<Action>, z: int)
    requires CoInv(n, z) && CanRun(n, run) && FewIds(After(n, run), z)
    ensures CoInv(After(n, run), z) && FewIds(n, z)
    decreases |run|
  {
    if run != [] {
      StepKeeps(n, run[0]);
      RunFew(n, run, z);
      StepCo(n, run[0], z);
      RunCo(Perform(n, run[0]), run[1..], z);
    }
  }

  lemma {:induction false} RunFew(n: Net, run: seq<Action>, z: int)
    requires Inv(n) && CanRun(n, run) && FewIds(After(n, run), z)
    ensures FewIds(n, z)
    decreases |run|
  {
    if run != [] {
      StepKeeps(n, run[0]);
      RunFew(Perform(n, run[0]), run[1..], z);
      IdsGrow(n, run[0], z);
    }
  }

  lemma InitialCo(n: Net, z: int)
    requires Initial(n)
    ensures CoInv(n, z)
  {
    InitialInv(n);
  }

  ghost predicate AssignPending(up: seq<Up>, id: int) {
    up != [] && ((up[0].AssignId? && up[0].id == id) || AssignPending(up[1..], id))
  }

  // Nothing about this attribute of the module is on its way to the stub.
  ghost predicate NothingComing(down: seq<Down>, id: int, index: int) {
    down == [] ||
    (&& (About(down[0], id) ==> down[0].Update? && down[0].note.index != index)
     && NothingComing(down[1..], id, index))
  }

  lemma {:induction false} FinalHeld(up: seq<Up>, entry: Option<int>, id: int)
    requires FinalEntry(up, entry) == Some(id) && id > 0 && !AssignPending(up, id)
    ensures entry == Some(id)
    decreases |up|
  {
    if up != [] {
      FinalHeld(up[1..], NextEntry(entry, up[0]), id);
    }
  }

  lemma {:induction false} EffectiveQuiet(mirror: seq<Value>, down: seq<Down>, id: int, index: nat)
    requires NothingComing(down, id, index)
    ensures var eff := Effective(mirror, down, id);
            |eff| == |mirror| && (index < |mirror| ==> eff[index] == mirror[index])
    decreases |down|
  {
    if down != [] {
      EffectiveQuiet(if About(down[0], id) then ApplyDown(mirror, down[0]) else mirror, down[1..], id, index);
    }
  }

  // A registered module: live, its wrapper running and knowing its id.
  ghost predicate Serving(n: Net, l: Link, id: int) {
    Live(n, l, id) && !AssignPending(n.up(l), id)
  }

  // Nothing about an attribute of a registered module is on its way or left unannounced.
  ghost predicate Settled(n: Net, l: Link, id: int, index: nat) {
    && Serving(n, l, id)
    && index < |n.wrappers(l.w).values| && index !in n.wrappers(l.w).dirty
    && !SetPending(n.up(l), id, index) && NothingComing(n.down(l), id, index)
  }

  // The stub's copy of the attribute is the wrapper's value.
  ghost predicate Coherent(n: Net, l: Link, id: int, index: nat)
    requires index < |n.wrappers(l.w).values|
  {
    var mirror := Mirror(n.servers(l.s), id);
    index < |mirror| && mirror[index] == n.wrappers(l.w).values[index]
  }

  // In every run in which the stub of this module has issued at most fourteen ids, whatever the
  // other stubs have issued, with sets in either callback mode and writes by the wrapped
  // programs: whenever no set request and no message for an attribute of a registered module is
  // on its way, the stub's copy of the attribute is the wrapper's value, unless the program
  // changed it without announcing the change.
  lemma MirrorsAreCoherent(n: Net, run: seq<Action>, l: Link, id: int, index: nat)
    requires Initial(n) && CanRun(n, run) && FewIds(After(n, run), l.s)
    requires Settled(After(n, run), l, id, index)
    ensures Coherent(After(n, run), l, id, index)
  {
    InitialCo(n, l.s);
    RunCo(n, run, l.s);
    var n' := After(n, run);
    LiveId(n', l, id);
    FinalHeld(n'.up(l), Entry(n'.wrappers(l.w), l.s), id);
    EffectiveQuiet(Mirror(n'.servers(l.s), id), n'.down(l), id, index);
  }

  // In every such run, the updates a registered module has received, followed by those on
  // their way to it, are what its wrapper has announced since it exposed the module, in order.
  lemma UpdatesArriveInOrder(n: Net, run: seq<Action>, l: Link, id: int)
    requires Initial(n) && CanRun(n, run) && FewIds(After(n, run), l.s) && Serving(After(n, run), l, id)
    ensures var n' := After(n, run);
            Told(n'.wrappers(l.w), l.s) == Seen(n'.servers(l.s), id) + NotesFor(n'.down(l), id)
  {
    InitialCo(n, l.s);
    RunCo(n, run, l.s);
    var n' := After(n, run);
    LiveId(n', l, id);
    FinalHeld(n'.up(l), Entry(n'.wrappers(l.w), l.s), id);
  }
}
