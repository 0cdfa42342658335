// The rule by which ObjectComm picks a connection, on a stub and on a wrapper alike, over every
// sequence of activations, messages and closed connections.
module Channels {
  import opened Common
  import opened OrderedMap
  import opened Messages
  import opened Routing

  datatype Op =
    | Activate(fd: int)                  // setLastUsedCommChannel
    | Write(message: seq<Byte>)          // clientDataSend
    | Close(fd: int)                     // objCommChannelShutdown

  // The routing state and, in order, what was written to which connection.
  datatype Log = Log(comm: Comm, sent: seq<Sent>)

  predicate Fits(op: Op) {
    match op
    case Activate(fd) => fd != INVALID_SOCKET
    case Write(message) => |message| >= 2
    case Close(_) => true
  }

  function Do(g: Log, pythonServer: bool, op: Op): Log
    requires Fits(op)
  {
    match op
    case Activate(fd) => g.(comm := g.comm.(active := fd))
    case Write(message) =>
      var (comm, channel) := Route(g.comm, pythonServer, message);
      Log(comm, if channel != INVALID_SOCKET then g.sent + [Sent(channel, message)] else g.sent)
    case Close(fd) => g.(comm := g.comm.(routes := Unmap(g.comm.routes, fd)))
  }

  predicate AllFit(ops: seq<Op>) {
    forall op :: op in ops ==> Fits(op)
  }

  function Run(g: Log, pythonServer: bool, ops: seq<Op>): Log
    requires AllFit(ops)
    decreases |ops|
  {
    if ops == [] then g else Run(Do(g, pythonServer, ops[0]), pythonServer, ops[1..])
  }

  // Whom a message is for: on a stub the module with this id, on a wrapper the stub with this id.
  function KeyOf(pythonServer: bool, message: seq<Byte>): int
    requires |message| >= 2
  {
    if pythonServer then message[1] else message[0] % 16
  }

  // A message that ties its key to a connection: ASSIGN_ID on a stub, DECLARE and EXPOSE on a wrapper.
  predicate Ties(pythonServer: bool, message: seq<Byte>, key: int) {
    && |message| >= 2 && KeyOf(pythonServer, message) == key
    && (if pythonServer then message[0] / 16 == MODULE_ASSIGN_ID
        else message[0] / 16 == MODULE_DECLARE || message[0] / 16 == ATTR_METD_EXPOSE)
  }

  // A message that goes where its key is tied; DISCOVERY of a stub goes to the active connection.
  predicate Follows(pythonServer: bool, message: seq<Byte>) {
    && |message| >= 2 && !Ties(pythonServer, message, KeyOf(pythonServer, message))
    && !(pythonServer && message[0] / 16 == MODULE_DISCOVERY)
  }

  // The connection of the last message that tied this key.
  function LastTie(sent: seq<Sent>, pythonServer: bool, key: int): Option<int> {
    if sent == [] then None
    else
      var n := |sent| - 1;
      if Ties(pythonServer, sent[n].message, key) then Some(sent[n].channel) else LastTie(sent[..n], pythonServer, key)
  }

  ghost predicate Obeys(sent: seq<Sent>, pythonServer: bool, k: nat)
    requires k < |sent|
  {
    Follows(pythonServer, sent[k].message) ==>
      LastTie(sent[..k], pythonServer, KeyOf(pythonServer, sent[k].message)) == Some(sent[k].channel)
  }

  // A route that is kept is the last tie, and so was every connection chosen before.
  ghost predicate Inv(g: Log, pythonServer: bool) {
    && Ascending(g.comm.routes)
    && (forall key :: RouteIsTie(g, pythonServer, key))
    && (forall k :: 0 <= k < |g.sent| ==> Obeys(g.sent, pythonServer, k))
  }

  ghost predicate RouteIsTie(g: Log, pythonServer: bool, key: int) {
    Lookup(g.comm.routes, key) != None ==> Lookup(g.comm.routes, key) == LastTie(g.sent, pythonServer, key)
  }

  lemma WriteKeeps(g: Log, pythonServer: bool, message: seq<Byte>)
    requires Inv(g, pythonServer) && |message| >= 2
    ensures Inv(Do(g, pythonServer, Write(message)), pythonServer)
  {
    var g' := Do(g, pythonServer, Write(message));
    var key' := KeyOf(pythonServer, message);
    assert g'.sent == g.sent || g'.sent[..|g.sent|] == g.sent;
    AssignSets(g.comm.routes, key', g.comm.active, key');
    forall key
      ensures RouteIsTie(g', pythonServer, key)
    {
      assert RouteIsTie(g, pythonServer, key);
      AssignSets(g.comm.routes, key', g.comm.active, key);
    }
    forall k | 0 <= k < |g'.sent|
      ensures Obeys(g'.sent, pythonServer, k)
    {
      if k < |g.sent| {
        assert Obeys(g.sent, pythonServer, k);
        assert g'.sent[..k] == g.sent[..k];
      } else {
        assert RouteIsTie(g, pythonServer, key');
      }
    }
  }

  lemma CloseKeeps(g: Log, pythonServer: bool, fd: int)
    requires Inv(g, pythonServer)
    ensures Inv(Do(g, pythonServer, Close(fd)), pythonServer)
  {
    var g' := Do(g, pythonServer, Close(fd));
    match FirstWith(g.comm.routes, fd) {
      case None =>
      case Some(first) =>
        RemoveClears(g.comm.routes, first, first);
        forall key
          ensures RouteIsTie(g', pythonServer, key)
        {
          assert RouteIsTie(g, pythonServer, key);
          RemoveClears(g.comm.routes, first, key);
        }
    }
  }

  lemma {:induction false} RunKeeps(g: Log, pythonServer: bool, ops: seq<Op>)
    requires Inv(g, pythonServer) && AllFit(ops)
    ensures Inv(Run(g, pythonServer, ops), pythonServer)
    decreases |ops|
  {
    if ops != [] {
      assert ops[0] in ops;
      match ops[0] {
        case Activate(fd) =>
          forall key
            ensures RouteIsTie(Do(g, pythonServer, ops[0]), pythonServer, key)
          {
            assert RouteIsTie(g, pythonServer, key);
          }
        case Write(message) => WriteKeeps(g, pythonServer, message);
        case Close(fd) => CloseKeeps(g, pythonServer, fd);
      }
      RunKeeps(Do(g, pythonServer, ops[0]), pythonServer, ops[1..]);
    }
  }

  // Whatever is activated, written and closed: each message for a module leaves on the connection
  // of the last ASSIGN_ID for it, and each message for a server on the connection of the last
  // DECLARE or EXPOSE for it.
  lemma MessagesFollowTheLastTie(pythonServer: bool, ops: seq<Op>, k: nat)
    requires AllFit(ops)
    requires var sent := Run(Log(NEW_COMM, []), pythonServer, ops).sent;
             k < |sent| && Follows(pythonServer, sent[k].message)
    ensures var sent := Run(Log(NEW_COMM, []), pythonServer, ops).sent;
            LastTie(sent[..k], pythonServer, KeyOf(pythonServer, sent[k].message)) == Some(sent[k].channel)
  {
    RunKeeps(Log(NEW_COMM, []), pythonServer, ops);
    assert Obeys(Run(Log(NEW_COMM, []), pythonServer, ops).sent, pythonServer, k);
  }

  // ---------------------------------------------------------------- delivery

  // Neither ties this key anew nor closes this connection.
  predicate Spares(op: Op, pythonServer: bool, key: int, fd: int) {
    match op
    case Activate(_) => true
    case Write(message) => !Ties(pythonServer, message, key)
    case Close(channel) => channel != fd
  }

  predicate AllSpare(ops: seq<Op>, pythonServer: bool, key: int, fd: int) {
    forall op :: op in ops ==> Spares(op, pythonServer, key, fd)
  }

  // A message that ties its key takes the active connection, and uses it up; without one it is
  // dropped, and changes nothing.
  lemma TieIsWritten(g: Log, pythonServer: bool, message: seq<Byte>, key: int)
    requires Ascending(g.comm.routes) && Ties(pythonServer, message, key)
    ensures var g', fd := Do(g, pythonServer, Write(message)), g.comm.active;
            && g'.comm.active == INVALID_SOCKET
            && (fd == INVALID_SOCKET ==> g' == g)
            && (fd != INVALID_SOCKET ==>
                  && g'.sent == g.sent + [Sent(fd, message)]
                  && Lookup(g'.comm.routes, key) == Some(fd)
                  && forall k :: k != key ==> Lookup(g'.comm.routes, k) == Lookup(g.comm.routes, k))
  {
    forall k
      ensures Lookup(Assign(g.comm.routes, key, g.comm.active), k)
           == if k == key then Some(g.comm.active) else Lookup(g.comm.routes, k)
    {
      AssignSets(g.comm.routes, key, g.comm.active, k);
    }
  }

  // The DISCOVERY of a stub takes the active connection and uses it up as well, and ties nothing.
  lemma DiscoveryIsWritten(g: Log, message: seq<Byte>)
    requires |message| >= 2 && message[0] / 16 == MODULE_DISCOVERY
    ensures var g', fd := Do(g, true, Write(message)), g.comm.active;
            && g'.comm == Comm(g.comm.routes, INVALID_SOCKET)
            && g'.sent == if fd == INVALID_SOCKET then g.sent else g.sent + [Sent(fd, message)]
  {
  }

  // A closed connection loses its route with the smallest key; every other route stays.
  lemma ClosingErasesOne(g: Log, pythonServer: bool, fd: int, key: int)
    requires Ascending(g.comm.routes)
    ensures var g' := Do(g, pythonServer, Close(fd));
            && g'.sent == g.sent && g'.comm.active == g.comm.active
            && Lookup(g'.comm.routes, key)
               == if Lookup(g.comm.routes, key) == Some(fd) && FirstWith(g.comm.routes, fd) == Some(key) then None
                  else Lookup(g.comm.routes, key)
  {
    FirstWithIsThere(g.comm.routes, fd, key);
    match FirstWith(g.comm.routes, fd) {
      case None =>
      case Some(first) => RemoveClears(g.comm.routes, first, key);
    }
  }

  lemma SparedRoute(g: Log, pythonServer: bool, op: Op, key: int, fd: int)
    requires Ascending(g.comm.routes) && Fits(op) && Spares(op, pythonServer, key, fd)
    requires Lookup(g.comm.routes, key) == Some(fd)
    ensures var g' := Do(g, pythonServer, op); Ascending(g'.comm.routes) && Lookup(g'.comm.routes, key) == Some(fd)
  {
    match op {
      case Activate(_) =>
      case Write(message) => AssignSets(g.comm.routes, KeyOf(pythonServer, message), g.comm.active, key);
      case Close(channel) =>
        FirstWithIsThere(g.comm.routes, channel, key);
        match FirstWith(g.comm.routes, channel) {
          case None =>
          case Some(first) => RemoveClears(g.comm.routes, first, key);
        }
    }
  }

  lemma {:induction false} SparedRoutes(g: Log, pythonServer: bool, ops: seq<Op>, key: int, fd: int)
    requires Ascending(g.comm.routes) && AllFit(ops) && AllSpare(ops, pythonServer, key, fd)
    requires Lookup(g.comm.routes, key) == Some(fd)
    ensures Lookup(Run(g, pythonServer, ops).comm.routes, key) == Some(fd)
    decreases |ops|
  {
    hide Do;
    if ops != [] {
      assert ops[0] in ops;
      SparedRoute(g, pythonServer, ops[0], key, fd);
      SparedRoutes(Do(g, pythonServer, ops[0]), pythonServer, ops[1..], key, fd);
    }
  }

  // Whatever went on before: a message that ties its key, written while a connection is active, is
  // written to it, and so is every later message for the same key until that is tied anew or the
  // connection closes, whatever else is activated, written and closed in between.
  lemma DeliveredUntilTheNextTie(pythonServer: bool, before: seq<Op>, fd: int, tie: seq<Byte>, between: seq<Op>,
                                 message: seq<Byte>)
    requires AllFit(before) && fd != INVALID_SOCKET && |message| >= 2 && Follows(pythonServer, message)
    requires Ties(pythonServer, tie, KeyOf(pythonServer, message))
    requires AllFit(between) && AllSpare(between, pythonServer, KeyOf(pythonServer, message), fd)
    ensures var g := Run(Log(NEW_COMM, []), pythonServer, before);
            var g1 := Do(Do(g, pythonServer, Activate(fd)), pythonServer, Write(tie));
            var g2 := Run(g1, pythonServer, between);
            && g1.sent == g.sent + [Sent(fd, tie)]
            && Do(g2, pythonServer, Write(message)).sent == g2.sent + [Sent(fd, message)]
  {
    var key := KeyOf(pythonServer, message);
    RunKeeps(Log(NEW_COMM, []), pythonServer, before);
    var g := Do(Run(Log(NEW_COMM, []), pythonServer, before), pythonServer, Activate(fd));
    TieIsWritten(g, pythonServer, tie, key);
    AssignSets(g.comm.routes, key, fd, key);
    SparedRoutes(Do(g, pythonServer, Write(tie)), pythonServer, between, key, fd);
  }
}
