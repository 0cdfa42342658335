// The whole protocol: any number of stubs (servers) and wrappers, connected by FIFO channels.
// Modules are discovered, declared, registered and exposed; attributes are set from both
// sides; modules and wrappers go away. One message is processed per step.
module Protocol {
  import opened Common
  import opened Registry
  import opened Messages

  // An id as it travels: one byte.
  function IdByte(id: int): Byte {
    id % 256
  }

  // One value announced for an attribute.
  datatype Note = Note(index: nat, value: Value)

  // From a stub to a wrapper. The header names the stub, so it is not repeated here.
  datatype Up =
    | Discovery
    | AssignId(id: Byte, name: Str)
    | CallSet(id: Byte, note: Note)        // CALL_ATTR_METD or CALL_ATTR_METD_NOCB on an attribute
    | ServerShutdown

  // From a wrapper to a stub.
  datatype Down =
    | DeclareModule(name: Str)
    | Expose(id: Byte, values: seq<Value>)
    | Update(id: Byte, note: Note)
    | ModuleShutdown(id: Byte)

  // ---------------------------------------------------------------- the stub

  // home, and seen for the updates a module has received, are history: the stub does not
  // keep them. A mirror is the attribute vector of a module, empty before EXPOSE.
  datatype Server = Server(reg: Registry, mirrors: map<int, seq<Value>>, home: map<int, int>, seen: map<int, seq<Note>>)

  const NEW_SERVER := Server(EMPTY_REGISTRY, map[], map[], map[])

  function Mirror(sv: Server, id: int): seq<Value> {
    if id in sv.mirrors then sv.mirrors[id] else []
  }

  function Seen(sv: Server, id: int): seq<Note> {
    if id in sv.seen then sv.seen[id] else []
  }

  const NOWHERE := -1

  // The wrapper whose declaration created a module: calls for it go out on that channel.
  function Home(sv: Server, id: int): int {
    if id in sv.home then sv.home[id] else NOWHERE
  }

  function ApplyNote(mirror: seq<Value>, note: Note): seq<Value> {
    if note.index < |mirror| then mirror[note.index := note.value] else mirror
  }

  // A message for a module: EXPOSE appends to the attribute vector, an update replaces one value.
  function ApplyDown(mirror: seq<Value>, m: Down): seq<Value> {
    match m
    case Expose(_, values) => mirror + values
    case Update(_, note) => ApplyNote(mirror, note)
    case _ => mirror
  }

  function Noted(m: Down): seq<Note> {
    match m
    case Update(_, note) => [note]
    case _ => []
  }

  datatype ServerStep = ServerStep(server: Server, replies: seq<Up>)

  // PyConnectStub::processInput for a message from wrapper w
  function ServerReceive(sv: Server, w: int, m: Down): ServerStep {
    match m
    case DeclareModule(name) =>
      if HasName(sv.reg, name) || !Accepts(sv.reg, name) then ServerStep(sv, [])
      else
        var id := sv.reg.nextObjId;
        ServerStep(Server(Declare(sv.reg, name), sv.mirrors[id := []], sv.home[id := w], sv.seen[id := []]),
                   [AssignId(IdByte(id), name)])
    case ModuleShutdown(b) => ServerStep(sv.(reg := Delete(sv.reg, Masked(b))), [])
    case _ =>
      var id := Masked(m.id);
      if !HasId(sv.reg, id) then ServerStep(sv, [])
      else ServerStep(sv.(mirrors := sv.mirrors[id := ApplyDown(Mirror(sv, id), m)],
                          seen := sv.seen[id := Seen(sv, id) + Noted(m)]), [])
  }

  // ---------------------------------------------------------------- the wrapper

  // dirty (attributes written but not announced since), last (the last id assigned by a
  // server) and told (what was announced to a server since EXPOSE) are history.
  datatype Wrapper = Wrapper(
    name: Str, values: seq<Value>, servers: map<int, int>,
    alive: bool, dirty: set<int>, last: map<int, int>, told: map<int, seq<Note>>)

  function NewWrapper(name: Str, values: seq<Value>): Wrapper {
    Wrapper(name, values, map[], true, {}, map[], map[])
  }

  function Entry(wr: Wrapper, s: int): Option<int> {
    if s in wr.servers then Some(wr.servers[s]) else None
  }

  function Last(wr: Wrapper, s: int): int {
    if s in wr.last then wr.last[s] else 0
  }

  function Told(wr: Wrapper, s: int): seq<Note> {
    if s in wr.told then wr.told[s] else []
  }

  // updateAttribute as seen by one server: attributeUpdate is always on.
  function Announcement(wr: Wrapper, s: int, note: Note): seq<Down> {
    if s in wr.servers then [Update(IdByte(wr.servers[s]), note)] else []
  }

  function Announced(wr: Wrapper, index: nat): Wrapper
    requires index < |wr.values|
  {
    var note := Note(index, wr.values[index]);
    wr.(dirty := wr.dirty - {index}, told := wr.told + map s | s in wr.servers :: Told(wr, s) + [note])
  }

  function Written(wr: Wrapper, note: Note): Wrapper
    requires note.index < |wr.values|
  {
    wr.(values := wr.values[note.index := note.value], dirty := wr.dirty + {note.index})
  }

  datatype WrapperStep = WrapperStep(wrapper: Wrapper, replies: seq<Down>, announce: Option<nat>)

  // PyConnectWrapper::processInput for a message from server s
  function WrapperReceive(wr: Wrapper, s: int, m: Up): (r: WrapperStep)
    ensures r.announce.Some? ==> r.announce.value < |r.wrapper.values|
  {
    match m
    case Discovery =>
      if s in wr.servers then WrapperStep(wr, [], None)
      else WrapperStep(wr.(servers := wr.servers[s := UNASSIGNED], told := wr.told[s := []]),
                       [DeclareModule(wr.name)], None)
    case ServerShutdown => WrapperStep(wr.(servers := wr.servers - {s}), [], None)
    case AssignId(id, name) =>
      if name != wr.name then WrapperStep(wr, [], None)
      else WrapperStep(wr.(servers := wr.servers[s := id], last := wr.last[s := id], told := wr.told[s := []]),
                       [Expose(id, wr.values)], None)
    case CallSet(id, note) =>
      if Entry(wr, s) != Some(id) || note.index >= |wr.values| then WrapperStep(wr, [], None)
      else WrapperStep(Written(wr, note), [], Some(note.index))
  }

  // ---------------------------------------------------------------- the network

  datatype Link = Link(s: int, w: int)

  // Any number of stubs and wrappers, and a FIFO queue each way between any two.
  datatype Net = Net(servers: int -> Server, wrappers: int -> Wrapper, up: Link -> seq<Up>, down: Link -> seq<Down>)

  ghost function Put<K, V>(f: K -> V, k: K, v: V): K -> V {
    x => if x == k then v else f(x)
  }

  datatype Action =
    | Discover(l: Link)                     // a stub sends DISCOVERY
    | Advertise(l: Link)                    // a broadcast DECLARE arrives at a stub
    | AtServer(l: Link)                     // a stub processes the next message
    | AtWrapper(l: Link)                    // a wrapper processes the next message
    | SetAttribute(s: int, id: int, note: Note, arrives: Value, noCallback: bool)
    | Disconnect(s: int, id: int)           // a module is disconnected from Python
    | LocalWrite(w: int, note: Note)        // the wrapped program assigns the variable
    | Publish(w: int, index: nat)           // PYCONNECT_ATTRIBUTE_UPDATE
    | Quit(w: int)                          // moduleShutdown

  ghost predicate Can(n: Net, a: Action) {
    match a
    case Discover(_) => true
    case Advertise(l) => n.wrappers(l.w).alive
    case AtServer(l) => n.down(l) != []
    case AtWrapper(l) => n.wrappers(l.w).alive && n.up(l) != []
    case SetAttribute(s, id, note, _, _) => HasId(n.servers(s).reg, id) && note.index < |Mirror(n.servers(s), id)|
    case Disconnect(s, id) => HasId(n.servers(s).reg, id)
    case LocalWrite(w, note) => n.wrappers(w).alive && note.index < |n.wrappers(w).values|
    case Publish(w, index) => n.wrappers(w).alive && index < |n.wrappers(w).values|
    case Quit(w) => n.wrappers(w).alive
  }

  ghost function SendUp(n: Net, l: Link, ms: seq<Up>): Net {
    n.(up := Put(n.up, l, n.up(l) + ms))
  }

  ghost function SendDown(n: Net, l: Link, ms: seq<Down>): Net {
    n.(down := Put(n.down, l, n.down(l) + ms))
  }

  // updateAttribute: one message to every server the wrapper knows
  ghost function PublishAll(n: Net, w: int, index: nat): Net
    requires index < |n.wrappers(w).values|
  {
    var wr := n.wrappers(w);
    var note := Note(index, wr.values[index]);
    n.(wrappers := Put(n.wrappers, w, Announced(wr, index)),
       down := (l: Link) => if l.w == w then n.down(l) + Announcement(wr, l.s, note) else n.down(l))
  }

  ghost function ServerStepOn(n: Net, l: Link): Net
    requires n.down(l) != []
  {
    var r := ServerReceive(n.servers(l.s), l.w, n.down(l)[0]);
    SendUp(n.(servers := Put(n.servers, l.s, r.server), down := Put(n.down, l, n.down(l)[1..])), l, r.replies)
  }

  // A wrapper's own step, before what it announces is sent.
  ghost function Received(n: Net, l: Link): Net
    requires n.up(l) != []
  {
    var r := WrapperReceive(n.wrappers(l.w), l.s, n.up(l)[0]);
    SendDown(n.(wrappers := Put(n.wrappers, l.w, r.wrapper), up := Put(n.up, l, n.up(l)[1..])), l, r.replies)
  }

  ghost function WrapperStepOn(n: Net, l: Link): Net
    requires n.up(l) != []
  {
    var announce := WrapperReceive(n.wrappers(l.w), l.s, n.up(l)[0]).announce;
    if announce.Some? then PublishAll(Received(n, l), l.w, announce.value) else Received(n, l)
  }

  // setAttribute: in no-callback mode the stub writes its own copy at once. What arrives can
  // differ from what was given: an int is cut to 32 bits, a bool becomes an int.
  ghost function SetAttributeOn(n: Net, s: int, id: int, note: Note, arrives: Value, noCallback: bool): Net {
    var sv := n.servers(s);
    var n1 := SendUp(n, Link(s, Home(sv, id)), [CallSet(IdByte(id), Note(note.index, arrives))]);
    if noCallback then
      n1.(servers := Put(n.servers, s, sv.(mirrors := sv.mirrors[id := ApplyNote(Mirror(sv, id), note)])))
    else n1
  }

  // shutdownModuleByRef
  ghost function DisconnectOn(n: Net, s: int, id: int): Net {
    var sv := n.servers(s);
    SendUp(n.(servers := Put(n.servers, s, sv.(reg := Delete(sv.reg, id)))), Link(s, Home(sv, id)), [ServerShutdown])
  }

  function Farewell(wr: Wrapper, s: int): seq<Down> {
    if s in wr.servers then [ModuleShutdown(IdByte(wr.servers[s]))] else []
  }

  // moduleShutdown
  ghost function QuitOn(n: Net, w: int): Net {
    var wr := n.wrappers(w);
    n.(wrappers := Put(n.wrappers, w, wr.(servers := map[], alive := false)),
       down := (l: Link) => if l.w == w then n.down(l) + Farewell(wr, l.s) else n.down(l))
  }

  ghost function Perform(n: Net, a: Action): Net
    requires Can(n, a)
  {
    match a
    case Discover(l) => SendUp(n, l, [Discovery])
    case Advertise(l) => SendDown(n, l, [DeclareModule(n.wrappers(l.w).name)])
    case AtServer(l) => ServerStepOn(n, l)
    case AtWrapper(l) => WrapperStepOn(n, l)
    case SetAttribute(s, id, note, arrives, noCallback) => SetAttributeOn(n, s, id, note, arrives, noCallback)
    case Disconnect(s, id) => DisconnectOn(n, s, id)
    case LocalWrite(w, note) => n.(wrappers := Put(n.wrappers, w, Written(n.wrappers(w), note)))
    case Publish(w, index) => PublishAll(n, w, index)
    case Quit(w) => QuitOn(n, w)
  }

  ghost predicate CanRun(n: Net, run: seq<Action>)
    decreases |run|
  {
    run == [] || (Can(n, run[0]) && CanRun(Perform(n, run[0]), run[1..]))
  }

  ghost function After(n: Net, run: seq<Action>): Net
    requires CanRun(n, run)
    decreases |run|
  {
    if run == [] then n else After(Perform(n, run[0]), run[1..])
  }

  // No stub has registered a module, no wrapper knows a stub, and no message is on its way.
  ghost predicate Initial(n: Net) {
    && (forall s :: n.servers(s) == NEW_SERVER)
    && (forall w :: n.wrappers(w) == NewWrapper(n.wrappers(w).name, n.wrappers(w).values))
    && (forall l :: n.up(l) == [])
    && (forall l :: n.down(l) == [])
  }
}
