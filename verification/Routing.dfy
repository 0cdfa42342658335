// PyConnectObjComm and the stub's use of it: which connection a message for a module goes out
// on, and what closing a connection does to the modules behind it.
module Routing {
  import opened Common
  import opened OrderedMap
  import opened Registry
  import opened Messages
  import opened Framing
  import opened ClientList

  const INVALID_SOCKET := -1

  // objCommMap_ and activeCommChannel_
  datatype Comm = Comm(routes: seq<Entry<int>>, active: int)

  const NEW_COMM := Comm([], INVALID_SOCKET)

  // ---------------------------------------------------------------- ObjectComm, as functions

  function MsgTypeOf(message: seq<Byte>): (t: MsgType)
    requires message != []
  {
    message[0] / 16
  }

  // The message type, or -1 for a message without its end byte.
  function VerifyNegotiationMsg(message: seq<Byte>): int {
    if message == [] || message[|message| - 1] != MSG_END then -1 else MsgTypeOf(message)
  }

  // The key under which a message is routed: the module's id on a stub, the stub's on a wrapper.
  function RouteKey(pythonServer: bool, data: seq<Byte>): int
    requires |data| >= 2
  {
    if pythonServer then data[1] else data[0] % 16
  }

  // The outgoing messages that tie their key to the connection last read from.
  predicate Binds(pythonServer: bool, t: MsgType) {
    if pythonServer then t == MODULE_ASSIGN_ID else t == ATTR_METD_EXPOSE || t == MODULE_DECLARE
  }

  // findOrAddCommChanByMsgID: the new state and the connection to use
  function Route(c: Comm, pythonServer: bool, data: seq<Byte>): (Comm, int)
    requires |data| >= 2
  {
    var key, t := RouteKey(pythonServer, data), MsgTypeOf(data);
    if Binds(pythonServer, t) then
      (Comm(if c.active != INVALID_SOCKET then Assign(c.routes, key, c.active) else c.routes, INVALID_SOCKET), c.active)
    else if pythonServer && t == MODULE_DISCOVERY then
      (c.(active := INVALID_SOCKET), c.active)
    else
      (c, match Lookup(c.routes, key) case Some(channel) => channel case None => INVALID_SOCKET)
  }

  // The message objCommChannelShutdown makes up for the processor; none without a route.
  function ShutdownNotice(c: Comm, pythonServer: bool, channel: int): seq<Byte> {
    match FirstWith(c.routes, channel)
    case None => []
    case Some(key) =>
      if pythonServer then [Header(MODULE_SHUTDOWN, 0), key % 256, MSG_END]
      else [Header(SERVER_SHUTDOWN, key), 0, MSG_END]
  }

  // The first route to a closed connection is erased.
  function Unmap(routes: seq<Entry<int>>, channel: int): seq<Entry<int>> {
    match FirstWith(routes, channel)
    case None => routes
    case Some(key) => Remove(routes, key)
  }

  // ---------------------------------------------------------------- ObjectComm

  class ObjectComm {
    const pythonServer: bool
    var objCommMap_: seq<Entry<int>>
    var activeCommChannel_: int

    constructor (pythonServer: bool)
      ensures this.pythonServer == pythonServer && State() == NEW_COMM
    {
      this.pythonServer := pythonServer;
      objCommMap_, activeCommChannel_ := [], INVALID_SOCKET;
    }

    ghost function State(): Comm
      reads this
    {
      Comm(objCommMap_, activeCommChannel_)
    }

    // The active connection is used up by asking for it.
    method GetLastUsedCommChannel() returns (retSock: int)
      modifies this`activeCommChannel_
      ensures retSock == old(activeCommChannel_) && activeCommChannel_ == INVALID_SOCKET
    {
      retSock := activeCommChannel_;
      activeCommChannel_ := INVALID_SOCKET;
    }

    // The original aborts on an invalid connection.
    method SetLastUsedCommChannel(index: int)
      requires index != INVALID_SOCKET
      modifies this`activeCommChannel_
      ensures activeCommChannel_ == index
    {
      activeCommChannel_ := index;
    }

    method FindOrAddCommChanByMsgID(data: seq<Byte>) returns (index: int)
      requires |data| >= 2
      modifies this
      ensures (State(), index) == Route(old(State()), pythonServer, data)
      ensures pythonServer && data[0] / 16 == MODULE_ASSIGN_ID ==>
                && index == old(activeCommChannel_) && activeCommChannel_ == INVALID_SOCKET
                && objCommMap_ == if index == INVALID_SOCKET then old(objCommMap_)
                                  else Assign(old(objCommMap_), data[1], index)
      ensures !pythonServer && (data[0] / 16 == MODULE_DECLARE || data[0] / 16 == ATTR_METD_EXPOSE) ==>
                && index == old(activeCommChannel_) && activeCommChannel_ == INVALID_SOCKET
                && objCommMap_ == if index == INVALID_SOCKET then old(objCommMap_)
                                  else Assign(old(objCommMap_), data[0] % 16, index)
    {
      index := INVALID_SOCKET;
      var header, objID := data[0] / 16, data[0] % 16;
      if pythonServer {
        objID := data[1];
      }
      if (pythonServer && header == MODULE_ASSIGN_ID)
         || (!pythonServer && (header == ATTR_METD_EXPOSE || header == MODULE_DECLARE)) {
        index := GetLastUsedCommChannel();
        if index != INVALID_SOCKET {
          objCommMap_ := Assign(objCommMap_, objID, index);
        }
      } else if pythonServer && header == MODULE_DISCOVERY {
        index := GetLastUsedCommChannel();
      } else {
        match Lookup(objCommMap_, objID) {
          case Some(channel) => index := channel;
          case None =>
        }
      }
    }

    // Only the first mapping found is erased; `notice` goes to the processor first.
    method ObjCommChannelShutdown(chanID: int, notifyMesgProc: bool) returns (notice: seq<Byte>)
      requires Ascending(objCommMap_)
      modifies this`objCommMap_
      ensures State() == old(State()).(routes := Unmap(old(objCommMap_), chanID))
      ensures notice == if notifyMesgProc then ShutdownNotice(old(State()), pythonServer, chanID) else []
    {
      var i := 0;
      notice := [];
      while i < |objCommMap_| && objCommMap_[i].value != chanID
        invariant i <= |objCommMap_|
        invariant FirstWith(objCommMap_[i..], chanID) == FirstWith(objCommMap_, chanID)
        decreases |objCommMap_| - i
      {
        assert objCommMap_[i..][1..] == objCommMap_[i + 1..];
        i := i + 1;
      }
      if i < |objCommMap_| {
        var key := objCommMap_[i].key;
        assert FirstWith(objCommMap_[i..], chanID) == Some(key);
        if notifyMesgProc {
          notice := if pythonServer then [MODULE_SHUTDOWN * 16 + 0, key % 256, MSG_END]
                    else [SERVER_SHUTDOWN * 16 + key % 16, 0, MSG_END];
        }
        objCommMap_ := Remove(objCommMap_, key);
      }
    }
  }

  // ---------------------------------------------------------------- the stub's node

  // A message written to a connection.
  datatype Sent = Sent(channel: int, message: seq<Byte>)

  // What the stub process keeps for routing. home (the connection on which the declaration of
  // a module arrived) and sent are history.
  datatype Stub = Stub(serverId: int, reg: Registry, comm: Comm, home: map<int, int>, sent: seq<Sent>)

  datatype Node = Node(bigEndian: bool, stub: Stub, clients: seq<Client>)

  // clientDataSend, as far as the connection it writes to
  function Dispatch(st: Stub, message: seq<Byte>): Stub
    requires |message| >= 2
  {
    var (comm, channel) := Route(st.comm, true, message);
    st.(comm := comm, sent := if channel != INVALID_SOCKET then st.sent + [Sent(channel, message)] else st.sent)
  }

  datatype Processed = Processed(stub: Stub, toShutdown: bool)

  // The name in a declaration, behind the header and the option.
  function DeclaredName(message: seq<Byte>): Option<Str>
    requires message != []
  {
    if |message| < 2 then None
    else
      var (name, _) :- UnpackShortString(Cursor(message[2..], 0));
      Some(name)
  }

  // PyConnectStub::processInput, as far as it concerns registration and routing: a message of
  // another type reaches an existing module or none, but changes neither.
  function ProcessInput(st: Stub, from: int, message: seq<Byte>): Processed {
    if message == [] then Processed(st, false)
    else if MsgTypeOf(message) == MODULE_DECLARE then
      match DeclaredName(message)
      case None => Processed(st, false)
      case Some(name) =>
        if HasName(st.reg, name) then Processed(st, true)
        else if !Accepts(st.reg, name) then Processed(st, false)
        else
          var id := st.reg.nextObjId;
          Processed(Dispatch(st.(reg := Declare(st.reg, name), home := st.home[id := from]),
                             AssignMessage(st.serverId, id, name)), false)
    else if MsgTypeOf(message) == MODULE_SHUTDOWN && |message| >= 2 then
      Processed(st.(reg := Delete(st.reg, Masked(message[1]))), true)
    else Processed(st, false)
  }

  // What the polling loop reports. It ignores that a connection should be shut down: its
  // variable for the result is never assigned.
  function Handle(st: Stub, e: Event): Stub {
    match e
    case Active(fd) => st.(comm := st.comm.(active := fd))
    case Input(fd, payload) => ProcessInput(st, fd, payload).stub
    case Shutdown(fd) =>
      var st1 := ProcessInput(st, fd, ShutdownNotice(st.comm, true, fd)).stub;
      st1.(comm := st1.comm.(routes := Unmap(st1.comm.routes, fd)))
  }

  function HandleAll(st: Stub, es: seq<Event>): Stub
    decreases |es|
  {
    if es == [] then st else HandleAll(Handle(st, es[0]), es[1..])
  }

  datatype Action =
    | Accept(fd: int)                               // a connection comes in, or is made
    | Visit(i: nat, input: seq<Byte>)               // the polling loop reads from a connection
    | UdpDeclare(fd: int, message: seq<Byte>)       // a broadcast declaration; fd is the new connection
    | Discover                                      // DISCOVERY to a direct connection
    | Call(id: int, msgType: MsgType, index: int, args: seq<Byte>)
    | Disconnect(id: int)                           // shutdownModuleByRef

  const FRESH := Partial([], 0)

  function Accepted(n: Node, fd: int): Node {
    n.(clients := n.clients + [Client(fd, FRESH)], stub := Handle(n.stub, Active(fd)))
  }

  // The visit of one connection, as the list loop makes it.
  function Visited(n: Node, i: nat, input: seq<Byte>): Node
    requires i < |n.clients|
  {
    var h := PollOne(n.bigEndian, n.clients[i], map[n.clients[i].fd := input]);
    n.(clients := n.clients[..i] + h.clients + n.clients[i + 1..], stub := HandleAll(n.stub, h.events))
  }

  // processUDPInput: connect, process, and drop the connection again when told to.
  function UdpDeclared(n: Node, fd: int, message: seq<Byte>): Node {
    var n1 := Accepted(n, fd);
    var p := ProcessInput(n1.stub, fd, message);
    if !p.toShutdown then n1.(stub := p.stub)
    else
      var active := p.stub.comm.active;   // getLastUsedCommChannel
      n1.(stub := p.stub.(comm := Comm(Unmap(p.stub.comm.routes, active), INVALID_SOCKET)),
          clients := Without(n1.clients, active))
  }

  // The number of declarations among the messages of one read.
  function Declarations(payloads: seq<seq<Byte>>): nat {
    if payloads == [] then 0
    else (if payloads[0] != [] && MsgTypeOf(payloads[0]) == MODULE_DECLARE then 1 else 0) + Declarations(payloads[1..])
  }

  // What the messages of one read may do: carry at most one declaration, on a connection that
  // no module is routed to.
  predicate OneNegotiation(st: Stub, fd: int, payloads: seq<seq<Byte>>) {
    Declarations(payloads) <= 1 && (Declarations(payloads) == 1 ==> FirstWith(st.comm.routes, fd) == None)
  }

  predicate Can(n: Node, a: Action) {
    match a
    case Accept(fd) => fd >= 0 && fd !in Fds(n.clients)
    case Visit(i, input) =>
      i < |n.clients| &&
      OneNegotiation(n.stub, n.clients[i].fd, Feed(n.bigEndian, n.clients[i].partial, input).delivered)
    case UdpDeclare(fd, message) =>
      fd >= 0 && fd !in Fds(n.clients) && VerifyNegotiationMsg(message) == MODULE_DECLARE
    case Discover => true
    case Call(id, msgType, _, _) => HasId(n.stub.reg, id) && (msgType == CALL_ATTR_METD || msgType == CALL_ATTR_METD_NOCB)
    case Disconnect(id) => HasId(n.stub.reg, id)
  }

  function Perform(n: Node, a: Action): Node
    requires Can(n, a)
  {
    var st := n.stub;
    match a
    case Accept(fd) => Accepted(n, fd)
    case Visit(i, input) => Visited(n, i, input)
    case UdpDeclare(fd, message) => UdpDeclared(n, fd, message)
    case Discover => n.(stub := Dispatch(st, [Header(MODULE_DISCOVERY, st.serverId), MSG_END]))
    case Call(id, msgType, index, args) => n.(stub := Dispatch(st, CallMessage(msgType, st.serverId, id, index, args)))
    case Disconnect(id) =>
      n.(stub := Dispatch(st, [Header(SERVER_SHUTDOWN, st.serverId), id % 256, MSG_END]).(reg := Delete(st.reg, id)))
  }

  predicate CanRun(n: Node, run: seq<Action>)
    decreases |run|
  {
    run == [] || (Can(n, run[0]) && CanRun(Perform(n, run[0]), run[1..]))
  }

  function After(n: Node, run: seq<Action>): Node
    requires CanRun(n, run)
    decreases |run|
  {
    if run == [] then n else After(Perform(n, run[0]), run[1..])
  }

  function Initial(bigEndian: bool, serverId: int): Node {
    Node(bigEndian, Stub(serverId, EMPTY_REGISTRY, NEW_COMM, map[], []), [])
  }

  // ---------------------------------------------------------------- the invariant

  // A route leads to the open connection on which its module was declared; a registered module
  // has a route. Routes of modules that are gone may be left over.
  ghost predicate RouteOk(st: Stub, open: set<int>, id: int) {
    && (Lookup(st.comm.routes, id).Some? ==>
          1 <= id < st.reg.nextObjId && id in st.home
          && Lookup(st.comm.routes, id) == Some(st.home[id]) && st.home[id] in open)
    && (HasId(st.reg, id) ==> Lookup(st.comm.routes, id).Some?)
    && (id in st.home ==> id < st.reg.nextObjId)
  }

  // A connection carries one route.
  ghost predicate OneRoute(st: Stub, id: int) {
    Lookup(st.comm.routes, id).Some? ==> FirstWith(st.comm.routes, Lookup(st.comm.routes, id).value) == Some(id)
  }

  predicate NamesModule(message: seq<Byte>) {
    |message| >= 2 &&
    MsgTypeOf(message) in [MODULE_ASSIGN_ID, CALL_ATTR_METD, CALL_ATTR_METD_NOCB, SERVER_SHUTDOWN]
  }

  // A message that names a module left on that module's connection.
  ghost predicate SentOk(st: Stub, s: Sent) {
    NamesModule(s.message) ==> (s.message[1] as int) in st.home && st.home[s.message[1] as int] == s.channel
  }

  ghost predicate Inv(st: Stub, open: set<int>) {
    && Consistent(st.reg) && Ascending(st.comm.routes)
    && (forall fd :: fd in open ==> fd >= 0)
    && (forall id :: RouteOk(st, open, id))
    && (forall id :: OneRoute(st, id))
    && (forall k :: 0 <= k < |st.sent| ==> SentOk(st, st.sent[k]))
  }

  ghost predicate NodeInv(n: Node) {
    DistinctFds(n.clients) && Inv(n.stub, Fds(n.clients))
  }

  // ---------------------------------------------------------------- messages

  // Binding a fresh connection to a new id keeps every connection to one route.
  lemma BindsOnce(st: Stub, key: int, channel: int, id: int)
    requires Ascending(st.comm.routes) && FirstWith(st.comm.routes, channel) == None
    requires Lookup(st.comm.routes, key) == None && forall id :: OneRoute(st, id)
    ensures OneRoute(st.(comm := Comm(Assign(st.comm.routes, key, channel), INVALID_SOCKET)), id)
  {
    var m := st.comm.routes;
    var m' := Assign(m, key, channel);
    AssignSets(m, key, channel, id);
    if Lookup(m', id).Some? {
      var ch := Lookup(m', id).value;
      FirstWithIsThere(m', ch, id);
      var first := FirstWith(m', ch).value;
      AssignSets(m, key, channel, first);
      FirstWithIsThere(m, channel, first);
      FirstWithIsThere(m, channel, id);
      assert OneRoute(st, first) && OneRoute(st, id);
    }
  }

  // An accepted declaration uses up the active connection and routes the new id to it; without
  // an active connection the new module gets no route.
  lemma AcceptedDeclaration(st: Stub, fd: int, message: seq<Byte>)
    requires message != [] && MsgTypeOf(message) == MODULE_DECLARE && DeclaredName(message).Some?
    requires !HasName(st.reg, DeclaredName(message).value) && Accepts(st.reg, DeclaredName(message).value)
    requires 1 <= st.reg.nextObjId
    ensures var st', id := ProcessInput(st, fd, message).stub, st.reg.nextObjId;
            var assign := AssignMessage(st.serverId, id, DeclaredName(message).value);
            && MsgTypeOf(assign) == MODULE_ASSIGN_ID && assign[1] == id
            && (if st.comm.active == INVALID_SOCKET then
                  st'.comm == st.comm && st'.sent == st.sent
                else
                  st'.comm == Comm(Assign(st.comm.routes, id, st.comm.active), INVALID_SOCKET)
                  && st'.sent == st.sent + [Sent(st.comm.active, assign)])
  {
    var id, name := st.reg.nextObjId, DeclaredName(message).value;
    var assign := AssignMessage(st.serverId, id, name);
    assert |assign| >= 2 && assign[0] == Header(MODULE_ASSIGN_ID, st.serverId) && assign[1] == id;
    hide AssignMessage, Header, DeclaredName;
  }

  // An accepted declaration keeps the invariant.
  lemma DeclarationBinds(st: Stub, open: set<int>, fd: int, message: seq<Byte>)
    requires Inv(st, open) && fd in open && st.comm.active == fd && FirstWith(st.comm.routes, fd) == None
    requires message != [] && MsgTypeOf(message) == MODULE_DECLARE
    ensures Inv(ProcessInput(st, fd, message).stub, open)
  {
    var st' := ProcessInput(st, fd, message).stub;
    if st' != st {
      var name, key := DeclaredName(message).value, st.reg.nextObjId;
      AcceptedDeclaration(st, fd, message);
      DeclareRegisters(st.reg, name, key);
      assert RouteOk(st, open, key);
      AssignSets(st.comm.routes, key, fd, key);
      forall id
        ensures RouteOk(st', open, id) && OneRoute(st', id)
      {
        assert RouteOk(st, open, id);
        DeclareRegisters(st.reg, name, id);
        AssignSets(st.comm.routes, key, fd, id);
        BindsOnce(st, key, fd, id);
        assert st.(comm := st'.comm).comm == st'.comm;
        assert OneRoute(st.(comm := st'.comm), id);
      }
      forall k | 0 <= k < |st'.sent|
        ensures SentOk(st', st'.sent[k])
      {
        if k < |st.sent| {
          assert SentOk(st, st.sent[k]);
          if NamesModule(st.sent[k].message) {
            assert RouteOk(st, open, st.sent[k].message[1]);
          }
        }
      }
    }
  }

  lemma DeletionKeeps(st: Stub, open: set<int>, gone: int)
    requires Inv(st, open)
    ensures Inv(st.(reg := Delete(st.reg, gone)), open)
  {
    var st' := st.(reg := Delete(st.reg, gone));
    forall id
      ensures RouteOk(st', open, id) && OneRoute(st', id)
    {
      assert RouteOk(st, open, id) && OneRoute(st, id);
      DeleteRemoves(st.reg, gone, id);
    }
    DeleteRemoves(st.reg, gone, gone);
    forall k | 0 <= k < |st'.sent|
      ensures SentOk(st', st'.sent[k])
    {
      assert SentOk(st, st.sent[k]);
    }
  }

  lemma ActiveKeeps(st: Stub, open: set<int>, active: int)
    requires Inv(st, open)
    ensures Inv(st.(comm := st.comm.(active := active)), open)
  {
    var st' := st.(comm := st.comm.(active := active));
    forall id
      ensures RouteOk(st', open, id) && OneRoute(st', id)
    {
      assert RouteOk(st, open, id) && OneRoute(st, id);
    }
    forall k | 0 <= k < |st'.sent|
      ensures SentOk(st', st'.sent[k])
    {
      assert SentOk(st, st.sent[k]);
    }
  }

  // The messages of one read: at most one of them is a declaration.
  lemma {:induction false} InputsKeep(st: Stub, open: set<int>, fd: int, payloads: seq<seq<Byte>>)
    requires Inv(st, open) && fd in open && OneNegotiation(st, fd, payloads)
    requires Declarations(payloads) == 1 ==> st.comm.active == fd
    ensures Inv(HandleAll(st, Inputs(fd, payloads)), open)
    decreases |payloads|
  {
    if payloads != [] {
      var st' := Handle(st, Input(fd, payloads[0]));
      assert Inputs(fd, payloads)[1..] == Inputs(fd, payloads[1..]);
      if payloads[0] != [] && MsgTypeOf(payloads[0]) == MODULE_DECLARE {
        DeclarationBinds(st, open, fd, payloads[0]);
      } else if payloads[0] != [] && MsgTypeOf(payloads[0]) == MODULE_SHUTDOWN && |payloads[0]| >= 2 {
        DeletionKeeps(st, open, Masked(payloads[0][1]));
        assert st'.comm == st.comm;
      }
      InputsKeep(st', open, fd, payloads[1..]);
    }
  }

  // ---------------------------------------------------------------- closing a connection

  const ID_LIMIT := 16

  // The notice is made up and processed: what is left of the stub.
  lemma ShutdownHandled(st: Stub, fd: int)
    ensures Handle(st, Shutdown(fd))
         == match FirstWith(st.comm.routes, fd)
            case None => st
            case Some(key) => st.(reg := Delete(st.reg, Masked(key % 256)), comm := st.comm.(routes := Remove(st.comm.routes, key)))
  {
    match FirstWith(st.comm.routes, fd) {
      case None =>
      case Some(key) =>
        var notice := [Header(MODULE_SHUTDOWN, 0), key % 256, MSG_END];
        assert notice[0] / 16 == MODULE_SHUTDOWN && notice == ShutdownNotice(st.comm, true, fd);
        hide Header, DeclaredName, ShutdownNotice;
    }
  }

  // Closing the connection of a module removes its route and the module, and nothing else.
  lemma ShutdownRemoves(st: Stub, open: set<int>, fd: int, id: int)
    requires Inv(st, open) && st.reg.nextObjId <= ID_LIMIT
    ensures var st' := Handle(st, Shutdown(fd));
            && (Lookup(st.comm.routes, id) == Some(fd) ==>
                  Lookup(st'.comm.routes, id) == None && !HasId(st'.reg, id))
            && (Lookup(st.comm.routes, id) != Some(fd) ==>
                  Lookup(st'.comm.routes, id) == Lookup(st.comm.routes, id)
                  && (HasId(st'.reg, id) <==> HasId(st.reg, id))
                  && (HasId(st.reg, id) ==> NameOf(st'.reg, id) == NameOf(st.reg, id)))
  {
    ShutdownHandled(st, fd);
    hide Handle;
    assert RouteOk(st, open, id) && OneRoute(st, id);
    FirstWithIsThere(st.comm.routes, fd, id);
    match FirstWith(st.comm.routes, fd) {
      case None =>
      case Some(key) =>
        assert RouteOk(st, open, key);
        assert Masked(key) == key;
        RemoveClears(st.comm.routes, key, id);
        DeleteRemoves(st.reg, key, id);
    }
  }

  lemma ShutdownState(st: Stub, open: set<int>, fd: int)
    requires Inv(st, open) && st.reg.nextObjId <= ID_LIMIT
    ensures var st' := Handle(st, Shutdown(fd));
            && Consistent(st'.reg) && st'.reg.nextObjId == st.reg.nextObjId
            && st'.home == st.home && st'.sent == st.sent && Ascending(st'.comm.routes)
            && st'.comm == Comm(Unmap(st.comm.routes, fd), st.comm.active)
  {
    ShutdownHandled(st, fd);
    hide Handle;
    match FirstWith(st.comm.routes, fd) {
      case None =>
      case Some(key) =>
        assert RouteOk(st, open, key);
        FirstWithIsThere(st.comm.routes, fd, key);
        RemoveClears(st.comm.routes, key, key);
        DeleteRemoves(st.reg, key, key);
    }
  }

  lemma UnmapOneRoute(st: Stub, st': Stub, fd: int, id: int)
    requires Ascending(st.comm.routes) && st'.comm.routes == Unmap(st.comm.routes, fd) && forall id :: OneRoute(st, id)
    ensures Ascending(st'.comm.routes) && OneRoute(st', id)
    ensures FirstWith(st'.comm.routes, fd) == None
  {
    var m, m' := st.comm.routes, st'.comm.routes;
    match FirstWith(m, fd) {
      case None =>
        assert OneRoute(st, id);
      case Some(key) =>
        RemoveClears(m, key, id);
        if Lookup(m', id).Some? {
          var ch := Lookup(m', id).value;
          FirstWithIsThere(m', ch, id);
          var first := FirstWith(m', ch).value;
          RemoveClears(m, key, first);
          assert OneRoute(st, first) && OneRoute(st, id);
        }
        FirstWithIsThere(m', fd, key);
        if FirstWith(m', fd).Some? {
          var other := FirstWith(m', fd).value;
          assert OneRoute(st, other);
          RemoveClears(m, key, other);
        }
    }
  }

  lemma ShutdownKeeps(st: Stub, open: set<int>, fd: int)
    requires Inv(st, open) && st.reg.nextObjId <= ID_LIMIT
    ensures Inv(Handle(st, Shutdown(fd)), open - {fd})
  {
    var st' := Handle(st, Shutdown(fd));
    ShutdownState(st, open, fd);
    forall id
      ensures RouteOk(st', open - {fd}, id) && OneRoute(st', id)
    {
      assert RouteOk(st, open, id);
      ShutdownRemoves(st, open, fd, id);
      UnmapOneRoute(st, st', fd, id);
    }
    forall k | 0 <= k < |st'.sent|
      ensures SentOk(st', st'.sent[k])
    {
      assert SentOk(st, st.sent[k]);
    }
  }

  // ---------------------------------------------------------------- every step

  lemma MoreOpen(st: Stub, open: set<int>, fd: int)
    requires Inv(st, open) && fd >= 0
    ensures Inv(st, open + {fd})
  {
    forall id
      ensures RouteOk(st, open + {fd}, id)
    {
      assert RouteOk(st, open, id);
    }
  }

  lemma AcceptKeeps(n: Node, fd: int)
    requires NodeInv(n) && fd >= 0 && fd !in Fds(n.clients)
    ensures NodeInv(Accepted(n, fd)) && Fds(Accepted(n, fd).clients) == Fds(n.clients) + {fd}
    ensures FirstWith(Accepted(n, fd).stub.comm.routes, fd) == None
  {
    FdsExtended(n.clients, Client(fd, FRESH));
    MoreOpen(n.stub, Fds(n.clients), fd);
    ActiveKeeps(n.stub, Fds(n.clients) + {fd}, fd);
    var m := n.stub.comm.routes;
    if FirstWith(m, fd).Some? {
      assert RouteOk(n.stub, Fds(n.clients), FirstWith(m, fd).value);
      FirstWithIsThere(m, fd, 0);
    }
  }

  lemma VisitKeeps(n: Node, i: nat, input: seq<Byte>)
    requires NodeInv(n) && Can(n, Visit(i, input)) && n.stub.reg.nextObjId <= ID_LIMIT
    ensures NodeInv(Visited(n, i, input))
  {
    var c, open := n.clients[i], Fds(n.clients);
    assert c in n.clients;
    var h := PollOne(n.bigEndian, c, map[c.fd := input]);
    ReplaceAt(n.clients, i, h.clients);
    if input == [] {
      var st' := Handle(n.stub, Shutdown(c.fd));
      assert h.events[0] == Shutdown(c.fd) && h.events[1..] == [];
      assert HandleAll(st', []) == st';
      ShutdownKeeps(n.stub, open, c.fd);
      FdsWithout(n.clients, i);
      DropDistinct(n.clients, i);
    } else {
      var o := Feed(n.bigEndian, c.partial, input);
      assert h.events[0] == Active(c.fd) && h.events[1..] == Inputs(c.fd, o.delivered);
      ActiveKeeps(n.stub, open, c.fd);
      InputsKeep(Handle(n.stub, Active(c.fd)), open, c.fd, o.delivered);
      FdsUpdated(n.clients, i, h.clients[0]);
    }
  }

  lemma DropDistinct(cs: seq<Client>, i: nat)
    requires i < |cs| && DistinctFds(cs)
    ensures DistinctFds(DropAt(cs, i))
  {
    var ds := DropAt(cs, i);
    assert forall j {:trigger ds[j]} :: 0 <= j < |ds| ==> ds[j] == cs[if j < i then j else j + 1];
  }

  lemma WithoutLast(cs: seq<Client>, c: Client)
    requires DistinctFds(cs) && c.fd !in Fds(cs)
    ensures Without(cs + [c], c.fd) == cs
  {
    FdsExtended(cs, c);
    WithoutAt(cs + [c], c.fd, |cs|);
    assert DropAt(cs + [c], |cs|) == cs;
  }

  // A broadcast declaration of a registered name leaves the modules, the routes and the
  // connections as they were before the temporary connection was made.
  lemma KnownNameLeavesNoTrace(n: Node, fd: int, message: seq<Byte>)
    requires NodeInv(n) && Can(n, UdpDeclare(fd, message))
    requires DeclaredName(message).Some? && HasName(n.stub.reg, DeclaredName(message).value)
    ensures UdpDeclared(n, fd, message) == n.(stub := n.stub.(comm := n.stub.comm.(active := INVALID_SOCKET)))
  {
    AcceptKeeps(n, fd);
    WithoutLast(n.clients, Client(fd, FRESH));
  }

  lemma UdpKeeps(n: Node, fd: int, message: seq<Byte>)
    requires NodeInv(n) && Can(n, UdpDeclare(fd, message))
    ensures NodeInv(UdpDeclared(n, fd, message))
  {
    var n1 := Accepted(n, fd);
    AcceptKeeps(n, fd);
    if ProcessInput(n1.stub, fd, message).toShutdown {
      KnownNameLeavesNoTrace(n, fd, message);
      ActiveKeeps(n.stub, Fds(n.clients), INVALID_SOCKET);
    } else {
      DeclarationBinds(n1.stub, Fds(n1.clients), fd, message);
    }
  }

  // A message for a registered module goes out on the module's connection.
  lemma ModuleMessage(st: Stub, open: set<int>, id: int, message: seq<Byte>)
    requires Inv(st, open) && HasId(st.reg, id) && NamesModule(message) && message[1] == id
    requires MsgTypeOf(message) != MODULE_ASSIGN_ID
    ensures id in st.home && st.home[id] in open
    ensures Dispatch(st, message) == st.(sent := st.sent + [Sent(st.home[id], message)])
    ensures Inv(Dispatch(st, message), open)
  {
    assert RouteOk(st, open, id);
    var st' := Dispatch(st, message);
    forall id
      ensures RouteOk(st', open, id) && OneRoute(st', id)
    {
      assert RouteOk(st, open, id) && OneRoute(st, id);
    }
    forall k | 0 <= k < |st'.sent|
      ensures SentOk(st', st'.sent[k])
    {
      if k < |st.sent| {
        assert SentOk(st, st.sent[k]);
      }
    }
  }

  lemma DiscoverKeeps(st: Stub, open: set<int>)
    requires Inv(st, open)
    ensures Inv(Dispatch(st, [Header(MODULE_DISCOVERY, st.serverId), MSG_END]), open)
  {
    var st' := Dispatch(st, [Header(MODULE_DISCOVERY, st.serverId), MSG_END]);
    forall id
      ensures RouteOk(st', open, id) && OneRoute(st', id)
    {
      assert RouteOk(st, open, id) && OneRoute(st, id);
    }
    forall k | 0 <= k < |st'.sent|
      ensures SentOk(st', st'.sent[k])
    {
      if k < |st.sent| {
        assert SentOk(st, st.sent[k]);
      }
    }
  }

  lemma StepKeeps(n: Node, a: Action)
    requires NodeInv(n) && Can(n, a) && n.stub.reg.nextObjId <= ID_LIMIT
    ensures NodeInv(Perform(n, a))
  {
    var st, open := n.stub, Fds(n.clients);
    match a
    case Accept(fd) => AcceptKeeps(n, fd);
    case Visit(i, input) => VisitKeeps(n, i, input);
    case UdpDeclare(fd, message) => UdpKeeps(n, fd, message);
    case Discover => DiscoverKeeps(st, open);
    case Call(id, msgType, index, args) =>
      Registered(st.reg, id);
      ModuleMessage(st, open, id, CallMessage(msgType, st.serverId, id, index, args));
    case Disconnect(id) =>
      Registered(st.reg, id);
      var farewell := [Header(SERVER_SHUTDOWN, st.serverId), id % 256, MSG_END];
      ModuleMessage(st, open, id, farewell);
      DeletionKeeps(Dispatch(st, farewell), open, id);
  }

  // ---------------------------------------------------------------- every run

  // Ids are only ever issued upwards, and a removed one stays removed.
  ghost predicate Older(st: Stub, st': Stub, id: int) {
    && Consistent(st'.reg) && st.reg.nextObjId <= st'.reg.nextObjId
    && (id < st.reg.nextObjId && !HasId(st.reg, id) ==> !HasId(st'.reg, id))
  }

  lemma ProcessAges(st: Stub, from: int, message: seq<Byte>, id: int)
    requires Consistent(st.reg)
    ensures Older(st, ProcessInput(st, from, message).stub, id)
  {
    if message != [] && MsgTypeOf(message) == MODULE_DECLARE && DeclaredName(message).Some? {
      DeclareRegisters(st.reg, DeclaredName(message).value, id);
    } else if |message| >= 2 {
      DeleteRemoves(st.reg, Masked(message[1]), id);
    }
  }

  lemma {:induction false} HandleAges(st: Stub, es: seq<Event>, id: int)
    requires Consistent(st.reg)
    ensures Older(st, HandleAll(st, es), id)
    decreases |es|
  {
    if es != [] {
      match es[0] {
        case Active(_) =>
        case Input(fd, payload) => ProcessAges(st, fd, payload, id);
        case Shutdown(fd) => ProcessAges(st, fd, ShutdownNotice(st.comm, true, fd), id);
      }
      HandleAges(Handle(st, es[0]), es[1..], id);
    }
  }

  lemma StepAges(n: Node, a: Action, id: int)
    requires Consistent(n.stub.reg) && Can(n, a)
    ensures Older(n.stub, Perform(n, a).stub, id)
  {
    match a
    case Visit(i, input) =>
      HandleAges(n.stub, PollOne(n.bigEndian, n.clients[i], map[n.clients[i].fd := input]).events, id);
    case UdpDeclare(fd, message) => ProcessAges(Accepted(n, fd).stub, fd, message, id);
    case Disconnect(gone) => DeleteRemoves(n.stub.reg, gone, id);
    case _ =>
  }

  lemma {:induction false} RunAges(n: Node, run: seq<Action>, id: int)
    requires Consistent(n.stub.reg) && CanRun(n, run)
    ensures Older(n.stub, After(n, run).stub, id)
    decreases |run|
  {
    if run != [] {
      StepAges(n, run[0], id);
      RunAges(Perform(n, run[0]), run[1..], id);
    }
  }

  lemma {:induction false} RunKeeps(n: Node, run: seq<Action>)
    requires NodeInv(n) && CanRun(n, run) && After(n, run).stub.reg.nextObjId <= ID_LIMIT
    ensures NodeInv(After(n, run))
    decreases |run|
  {
    RunAges(n, run, 0);
    if run != [] {
      StepKeeps(n, run[0]);
      RunKeeps(Perform(n, run[0]), run[1..]);
    }
  }

  lemma InitialInv(bigEndian: bool, serverId: int)
    ensures NodeInv(Initial(bigEndian, serverId))
  {
  }

  // In every run in which at most 15 ids are issued, every registered module is routed to the
  // connection on which its declaration arrived; that connection is open, and no other
  // registered module is routed to it.
  lemma ModulesAreRoutedHome(bigEndian: bool, serverId: int, run: seq<Action>, id: int, other: int)
    requires CanRun(Initial(bigEndian, serverId), run)
    requires After(Initial(bigEndian, serverId), run).stub.reg.nextObjId <= ID_LIMIT
    ensures var n := After(Initial(bigEndian, serverId), run);
            var st := n.stub;
            HasId(st.reg, id) ==>
              && id in st.home && Lookup(st.comm.routes, id) == Some(st.home[id]) && st.home[id] in Fds(n.clients)
              && (HasId(st.reg, other) && other != id ==> Lookup(st.comm.routes, other) != Lookup(st.comm.routes, id))
  {
    var n := After(Initial(bigEndian, serverId), run);
    InitialInv(bigEndian, serverId);
    RunKeeps(Initial(bigEndian, serverId), run);
    assert RouteOk(n.stub, Fds(n.clients), id) && RouteOk(n.stub, Fds(n.clients), other);
    assert OneRoute(n.stub, id) && OneRoute(n.stub, other);
  }

  // In every such run, each message the stub wrote for a module id, at whatever time, went to
  // the connection on which the module with that id was declared.
  lemma MessagesLeaveOnTheirConnection(bigEndian: bool, serverId: int, run: seq<Action>, k: nat)
    requires CanRun(Initial(bigEndian, serverId), run)
    requires After(Initial(bigEndian, serverId), run).stub.reg.nextObjId <= ID_LIMIT
    requires k < |After(Initial(bigEndian, serverId), run).stub.sent|
    ensures var st := After(Initial(bigEndian, serverId), run).stub;
            var s := st.sent[k];
            NamesModule(s.message) ==> (s.message[1] as int) in st.home && s.channel == st.home[s.message[1] as int]
  {
    var n := After(Initial(bigEndian, serverId), run);
    InitialInv(bigEndian, serverId);
    RunKeeps(Initial(bigEndian, serverId), run);
    assert SentOk(n.stub, n.stub.sent[k]);
  }

  // In every such run, closing a connection unlists it, removes the module routed to it and
  // that module's route, and leaves every other module and route as it was.
  lemma ClosingRemovesTheModule(bigEndian: bool, serverId: int, run: seq<Action>, i: nat, id: int)
    requires CanRun(Initial(bigEndian, serverId), run)
    requires var n := After(Initial(bigEndian, serverId), run);
             n.stub.reg.nextObjId <= ID_LIMIT && i < |n.clients|
    ensures var n := After(Initial(bigEndian, serverId), run);
            var n' := Visited(n, i, []);
            var here := Lookup(n.stub.comm.routes, id) == Some(n.clients[i].fd);
            && n'.clients == DropAt(n.clients, i)
            && (HasId(n'.stub.reg, id) <==> HasId(n.stub.reg, id) && !here)
            && Lookup(n'.stub.comm.routes, id) == if here then None else Lookup(n.stub.comm.routes, id)
  {
    var n := After(Initial(bigEndian, serverId), run);
    InitialInv(bigEndian, serverId);
    RunKeeps(Initial(bigEndian, serverId), run);
    var c := n.clients[i];
    var h := PollOne(n.bigEndian, c, map[c.fd := []]);
    assert h.events[0] == Shutdown(c.fd) && h.events[1..] == [];
    var st' := Handle(n.stub, Shutdown(c.fd));
    assert HandleAll(st', []) == st';
    ReplaceAt(n.clients, i, h.clients);
    ShutdownRemoves(n.stub, Fds(n.clients), c.fd, id);
  }

  // A route that is left over from a removed module never becomes the route of a module again.
  lemma StaleRoutesStayStale(n: Node, run: seq<Action>, id: int)
    requires NodeInv(n) && CanRun(n, run)
    requires Lookup(n.stub.comm.routes, id).Some? && !HasId(n.stub.reg, id)
    ensures !HasId(After(n, run).stub.reg, id)
  {
    assert RouteOk(n.stub, Fds(n.clients), id);
    RunAges(n, run, id);
  }

  // ---------------------------------------------------------------- why the limits are there

  // An issued id without a route never gets one.
  ghost predicate Unroutable(st: Stub, id: int) {
    Consistent(st.reg) && Ascending(st.comm.routes) && id < st.reg.nextObjId && Lookup(st.comm.routes, id) == None
  }

  lemma DispatchLeavesUnroutable(st: Stub, id: int, message: seq<Byte>)
    requires Unroutable(st, id) && |message| >= 2
    requires MsgTypeOf(message) == MODULE_ASSIGN_ID ==> message[1] != id
    ensures Unroutable(Dispatch(st, message), id)
  {
    if st.comm.active != INVALID_SOCKET {
      AssignSets(st.comm.routes, message[1], st.comm.active, id);
    }
  }

  lemma ProcessLeavesUnroutable(st: Stub, id: int, from: int, message: seq<Byte>)
    requires Unroutable(st, id)
    ensures Unroutable(ProcessInput(st, from, message).stub, id)
  {
    ProcessAges(st, from, message, id);
    if message != [] && MsgTypeOf(message) == MODULE_DECLARE && DeclaredName(message).Some? {
      var name := DeclaredName(message).value;
      if !HasName(st.reg, name) && Accepts(st.reg, name) {
        AcceptedDeclaration(st, from, message);
        AssignSets(st.comm.routes, st.reg.nextObjId, st.comm.active, id);
      }
    }
    hide AssignMessage, DeclaredName;
  }

  lemma {:induction false} HandleLeavesUnroutable(st: Stub, id: int, es: seq<Event>)
    requires Unroutable(st, id)
    ensures Unroutable(HandleAll(st, es), id)
    decreases |es|
  {
    if es != [] {
      match es[0] {
        case Active(_) =>
        case Input(fd, payload) => ProcessLeavesUnroutable(st, id, fd, payload);
        case Shutdown(fd) => UnmapLeavesUnroutable(st, id, fd);
      }
      HandleLeavesUnroutable(Handle(st, es[0]), id, es[1..]);
    }
  }

  lemma UnmapLeavesUnroutable(st: Stub, id: int, fd: int)
    requires Unroutable(st, id)
    ensures Unroutable(Handle(st, Shutdown(fd)), id)
  {
    ShutdownHandled(st, fd);
    hide Handle;
    match FirstWith(st.comm.routes, fd) {
      case None =>
      case Some(key) =>
        RemoveClears(st.comm.routes, key, id);
        DeleteRemoves(st.reg, Masked(key % 256), id);
    }
  }

  lemma StepLeavesUnroutable(n: Node, a: Action, id: int)
    requires Unroutable(n.stub, id) && Can(n, a)
    ensures Unroutable(Perform(n, a).stub, id)
  {
    hide ProcessInput, CallMessage, Route;
    var st := n.stub;
    match a
    case Accept(_) =>
    case Visit(i, input) =>
      HandleLeavesUnroutable(st, id, PollOne(n.bigEndian, n.clients[i], map[n.clients[i].fd := input]).events);
    case UdpDeclare(fd, message) =>
      var st1 := Accepted(n, fd).stub;
      ProcessLeavesUnroutable(st1, id, fd, message);
      var p := ProcessInput(st1, fd, message);
      UnmapKeepsNone(p.stub, id, p.stub.comm.active);
    case Discover => DispatchLeavesUnroutable(st, id, [Header(MODULE_DISCOVERY, st.serverId), MSG_END]);
    case Call(id', msgType, index, args) =>
      CallType(msgType, st.serverId, id', index, args);
      DispatchLeavesUnroutable(st, id, CallMessage(msgType, st.serverId, id', index, args));
    case Disconnect(gone) =>
      DispatchLeavesUnroutable(st, id, [Header(SERVER_SHUTDOWN, st.serverId), gone % 256, MSG_END]);
      DeleteRemoves(st.reg, gone, id);
  }

  lemma CallType(msgType: MsgType, serverId: int, id: int, index: int, args: seq<Byte>)
    ensures |CallMessage(msgType, serverId, id, index, args)| >= 2
    ensures MsgTypeOf(CallMessage(msgType, serverId, id, index, args)) == msgType
  {
    hide CallBody;
  }

  lemma UnmapKeepsNone(st: Stub, id: int, fd: int)
    requires Unroutable(st, id)
    ensures Ascending(Unmap(st.comm.routes, fd)) && Lookup(Unmap(st.comm.routes, fd), id) == None
  {
    match FirstWith(st.comm.routes, fd) {
      case None =>
      case Some(key) => RemoveClears(st.comm.routes, key, id);
    }
  }

  lemma {:induction false} RunLeavesUnroutable(n: Node, run: seq<Action>, id: int)
    requires Unroutable(n.stub, id) && CanRun(n, run)
    ensures Unroutable(After(n, run).stub, id)
    decreases |run|
  {
    if run != [] {
      StepLeavesUnroutable(n, run[0], id);
      RunLeavesUnroutable(Perform(n, run[0]), run[1..], id);
    }
  }

  // Declarations of a new name, for which an id is left.
  predicate Declares(st: Stub, message: seq<Byte>) {
    && message != [] && MsgTypeOf(message) == MODULE_DECLARE
    && DeclaredName(message).Some? && DeclaredName(message).value != [] && !HasName(st.reg, DeclaredName(message).value)
  }

  // Two of them that come in with one read, on a connection without a route.
  ghost predicate TwoNewModules(st: Stub, open: set<int>, fd: int, first: seq<Byte>, second: seq<Byte>) {
    && Inv(st, open) && fd in open && FirstWith(st.comm.routes, fd) == None && st.reg.nextObjId + 1 <= MAX_OBJ_ID
    && Declares(st, first) && Declares(st, second) && DeclaredName(first) != DeclaredName(second)
  }

  // A second module declared in the same read is registered, but has no route.
  lemma SecondDeclarationHasNoRoute(st: Stub, open: set<int>, fd: int, first: seq<Byte>, second: seq<Byte>)
    requires TwoNewModules(st, open, fd, first, second)
    ensures var st' := HandleAll(st, [Active(fd), Input(fd, first), Input(fd, second)]);
            var id := st.reg.nextObjId + 1;
            HasId(st'.reg, id) && NameOf(st'.reg, id) == DeclaredName(second).value
            && Unroutable(st', id)
  {
    var st0, id := Handle(st, Active(fd)), st.reg.nextObjId + 1;
    ActiveKeeps(st, open, fd);
    DeclarationBinds(st0, open, fd, first);
    AcceptedDeclaration(st0, fd, first);
    var st1 := Handle(st0, Input(fd, first));
    Appended(st.reg.modules, 0, st.reg.nextObjId, Module(st.reg.nextObjId, DeclaredName(first).value));
    AcceptedDeclaration(st1, fd, second);
    DeclareRegisters(st1.reg, DeclaredName(second).value, id);
    assert RouteOk(st1, open, id);
    var st2 := Handle(st1, Input(fd, second));
    HandleThree(st, Active(fd), Input(fd, first), Input(fd, second));
  }

  // Nor does it ever get one, in any run that follows: the module can never be reached.
  lemma SecondDeclarationIsNeverRouted(st: Stub, open: set<int>, fd: int, first: seq<Byte>, second: seq<Byte>,
                                       n: Node, run: seq<Action>)
    requires TwoNewModules(st, open, fd, first, second)
    requires n.stub == HandleAll(st, [Active(fd), Input(fd, first), Input(fd, second)]) && CanRun(n, run)
    ensures Lookup(After(n, run).stub.comm.routes, st.reg.nextObjId + 1) == None
  {
    SecondDeclarationHasNoRoute(st, open, fd, first, second);
    RunLeavesUnroutable(n, run, st.reg.nextObjId + 1);
  }

  lemma HandleThree(st: Stub, e1: Event, e2: Event, e3: Event)
    ensures HandleAll(st, [e1, e2, e3]) == Handle(Handle(Handle(st, e1), e2), e3)
  {
    assert [e1, e2, e3][1..] == [e2, e3] && [e2, e3][1..] == [e3] && [e3][1..] == [];
    var st' := Handle(Handle(st, e1), e2);
    assert HandleAll(Handle(st', e3), []) == Handle(st', e3);
    assert HandleAll(st', [e3]) == Handle(st', e3);
  }

  // Without those limits: closing a connection takes away exactly the module whose id is the
  // smallest routed one, cut to four bits, and exactly the route of the smallest one.
  lemma ClosingTakesTheFirstRoute(st: Stub, fd: int, id: int)
    requires Consistent(st.reg) && Ascending(st.comm.routes)
    requires forall id :: Lookup(st.comm.routes, id).Some? ==> 1 <= id <= MAX_OBJ_ID
    ensures var st' := Handle(st, Shutdown(fd));
            var first := FirstWith(st.comm.routes, fd);
            && (HasId(st'.reg, id) <==> HasId(st.reg, id) && !(first.Some? && id == first.value % 16))
            && (Lookup(st'.comm.routes, id) == if first == Some(id) then None else Lookup(st.comm.routes, id))
            && (first.Some? ==> Lookup(st.comm.routes, first.value) == Some(fd))
            && (first.Some? && Lookup(st.comm.routes, id) == Some(fd) ==> first.value <= id)
  {
    ShutdownHandled(st, fd);
    FirstWithIsThere(st.comm.routes, fd, id);
    hide Handle, FirstWith, Consistent;
    match FirstWith(st.comm.routes, fd) {
      case None =>
      case Some(key) =>
        assert key % 256 == key;
        RemoveClears(st.comm.routes, key, id);
        DeleteRemoves(st.reg, Masked(key), id);
    }
  }
}
