// The singly linked list of connections in PyConnectNetComm, and the polling loop that reads
// from the ready ones and unlinks the closed ones while it walks the list.
module ClientList {
  import opened Common
  import opened Framing

  // What the polling loop hands to the layers above it, in order.
  datatype Event =
    | Active(fd: int)                        // setLastUsedCommChannel
    | Input(fd: int, payload: seq<Byte>)     // MessageProcessor::processInput
    | Shutdown(fd: int)                      // objCommChannelShutdown, notifying the processor

  // The value of one list node.
  datatype Client = Client(fd: int, partial: Partial)

  // struct sClientFD
  class ClientFD {
    const fd: int
    const bufferedData: array<Byte>
    var expectedDataLength: int
    var bufferedDataLength: int
    var pNext: ClientFD?

    constructor (fd: int)
      ensures Valid() && this.fd == fd && pNext == null && fresh(bufferedData)
      ensures State() == Client(fd, Partial([], 0))
    {
      this.fd := fd;
      bufferedData := new Byte[BUFFER_SIZE](_ => 0);
      expectedDataLength, bufferedDataLength := 0, 0;
      pNext := null;
    }

    // Both lengths stay nonnegative and a partial message fits its buffer.
    ghost predicate Valid()
      reads this`expectedDataLength, this`bufferedDataLength
    {
      && bufferedData.Length == BUFFER_SIZE
      && 0 <= bufferedDataLength && 0 <= expectedDataLength
      && bufferedDataLength + expectedDataLength <= BUFFER_SIZE
    }

    ghost function State(): Client
      requires Valid()
      reads this`expectedDataLength, this`bufferedDataLength, bufferedData
    {
      Client(fd, Partial(bufferedData[..bufferedDataLength], expectedDataLength))
    }

    // The receive loop over the bytes of one read. `data` is dataPtr and readLen in one: the
    // bytes of the read that the loop has still to look at.
    method Receive(bigEndian: bool, input: seq<Byte>) returns (delivered: seq<seq<Byte>>)
      requires Valid() && input != []
      modifies this`expectedDataLength, this`bufferedDataLength, bufferedData
      ensures Valid()
      ensures Outcome(State().partial, delivered) == Feed(bigEndian, old(State().partial), input)
    {
      var data := input;
      delivered := [];
      ghost var goal := Feed(bigEndian, State().partial, input);
      while data != []
        invariant Valid()
        invariant goal == Prefixed(delivered, Feed(bigEndian, State().partial, data))
        decreases |data|
      {
        var payloads;
        if data[0] == MSG_INIT && expectedDataLength == 0 {
          data, payloads := NewMessage(bigEndian, data);
        } else if expectedDataLength > 0 {
          data, payloads := PatchCached(bigEndian, data);
        } else {
          bufferedDataLength, expectedDataLength := 0, 0;
          data, payloads := [], [];
          assert bufferedData[..0] == [];
        }
        PrefixedTwice(delivered, payloads, Feed(bigEndian, State().partial, data));
        delivered := delivered + payloads;
      }
    }

    // The first branch of the loop body. Leaving the loop early leaves nothing to look at.
    method NewMessage(bigEndian: bool, data: seq<Byte>) returns (rest: seq<Byte>, payloads: seq<seq<Byte>>)
      requires Valid() && data != [] && data[0] == MSG_INIT && expectedDataLength == 0
      modifies this`expectedDataLength, this`bufferedDataLength, bufferedData
      ensures Valid() && |rest| < |data|
      ensures Feed(bigEndian, old(State().partial), data)
           == Prefixed(payloads, Feed(bigEndian, State().partial, rest))
    {
      hide Feed, ShortAt;
      rest, payloads := [], [];
      FeedOnNew(bigEndian, State().partial, data);
      NothingLeft(bigEndian, State().partial);
      if |data| < 4 {
        return;
      }
      var dataCount := ShortAt(bigEndian, data[1..3]);
      var body := data[3..];
      if dataCount < 0 || dataCount > BUFFER_SIZE {
        return;
      } else if dataCount > |body| - 1 {
        bufferedDataLength := |body|;
        Copy(body, bufferedData, 0);
        expectedDataLength := dataCount - bufferedDataLength;
        assert bufferedData[..bufferedDataLength] == body;
        NothingLeft(bigEndian, State().partial);
      } else if body[dataCount] == MSG_END {
        payloads := [body[..dataCount]];
        rest := body[dataCount + 1..];
      }
    }

    // The second branch: complete the message in the buffer, or cache on.
    method PatchCached(bigEndian: bool, data: seq<Byte>) returns (rest: seq<Byte>, payloads: seq<seq<Byte>>)
      requires Valid() && data != [] && expectedDataLength > 0
      modifies this`expectedDataLength, this`bufferedDataLength, bufferedData
      ensures Valid() && |rest| < |data|
      ensures Feed(bigEndian, old(State().partial), data)
           == Prefixed(payloads, Feed(bigEndian, State().partial, rest))
    {
      hide Feed;
      rest, payloads := [], [];
      ghost var c := State().partial;
      FeedOnCached(bigEndian, c, data);
      var cachedPtr := bufferedDataLength;
      if expectedDataLength > |data| - 1 {
        Copy(data, bufferedData, cachedPtr);
        bufferedDataLength := bufferedDataLength + |data|;
        expectedDataLength := expectedDataLength - |data|;
        assert State().partial == Partial(c.buffered + data, c.expected - |data|);
      } else if data[expectedDataLength] == MSG_END {
        Copy(data[..expectedDataLength], bufferedData, cachedPtr);
        payloads := [bufferedData[..bufferedDataLength + expectedDataLength]];
        assert payloads == [c.buffered + data[..c.expected]];
        rest := data[expectedDataLength + 1..];
        bufferedDataLength, expectedDataLength := 0, 0;
        assert bufferedData[..0] == [];
      } else {
        bufferedDataLength, expectedDataLength := 0, 0;
        assert bufferedData[..0] == [];
      }
      NothingLeft(bigEndian, State().partial);
    }
  }

  ghost function Prefixed(delivered: seq<seq<Byte>>, o: Outcome): Outcome {
    Outcome(o.partial, delivered + o.delivered)
  }

  lemma NothingLeft(bigEndian: bool, c: Partial)
    ensures Prefixed([], Feed(bigEndian, c, [])) == Outcome(c, [])
  {
  }

  lemma PrefixedTwice(first: seq<seq<Byte>>, second: seq<seq<Byte>>, o: Outcome)
    ensures Prefixed(first, Prefixed(second, o)) == Prefixed(first + second, o)
  {
    assert first + (second + o.delivered) == (first + second) + o.delivered;
  }

  // memcpy into a buffer behind its first `to` bytes
  method Copy(source: seq<Byte>, target: array<Byte>, to: nat)
    requires to + |source| <= target.Length
    modifies target
    ensures target[..to + |source|] == old(target[..to]) + source
  {
    forall i | 0 <= i < |source| {
      target[to + i] := source[i];
    }
  }

  // ---------------------------------------------------------------- polling, as a function

  datatype Polled = Polled(clients: seq<Client>, events: seq<Event>)

  function Inputs(fd: int, payloads: seq<seq<Byte>>): seq<Event> {
    if payloads == [] then [] else [Input(fd, payloads[0])] + Inputs(fd, payloads[1..])
  }

  // What becomes of one connection in a pass. `ready` gives, for every ready descriptor, what
  // read() returned: no bytes when the connection was closed or failed.
  function PollOne(bigEndian: bool, c: Client, ready: map<int, seq<Byte>>): Polled {
    if c.fd !in ready then Polled([c], [])
    else if ready[c.fd] == [] then Polled([], [Shutdown(c.fd)])
    else
      var o := Feed(bigEndian, c.partial, ready[c.fd]);
      Polled([Client(c.fd, o.partial)], [Active(c.fd)] + Inputs(c.fd, o.delivered))
  }

  // One pass over the connections.
  function Poll(bigEndian: bool, cs: seq<Client>, ready: map<int, seq<Byte>>): Polled {
    if cs == [] then Polled([], [])
    else
      var h, p := PollOne(bigEndian, cs[0], ready), Poll(bigEndian, cs[1..], ready);
      Polled(h.clients + p.clients, h.events + p.events)
  }

  // What a pass has made of the list before position i, and what it will make of the rest.
  ghost function Pass(bigEndian: bool, cs: seq<Client>, events: seq<Event>, i: nat, ready: map<int, seq<Byte>>): Polled
    requires i <= |cs|
  {
    var p := Poll(bigEndian, cs[i..], ready);
    Polled(cs[..i] + p.clients, events + p.events)
  }

  lemma PassStep(bigEndian: bool, cs: seq<Client>, events: seq<Event>, i: nat, ready: map<int, seq<Byte>>)
    requires i < |cs|
    ensures var h := PollOne(bigEndian, cs[i], ready);
            Pass(bigEndian, cs, events, i, ready)
            == Pass(bigEndian, cs[..i] + h.clients + cs[i + 1..], events + h.events, i + |h.clients|, ready)
  {
    var h, tail := PollOne(bigEndian, cs[i], ready), Poll(bigEndian, cs[i + 1..], ready);
    var cs', i' := cs[..i] + h.clients + cs[i + 1..], i + |h.clients|;
    assert cs[i..][1..] == cs[i + 1..];
    assert Poll(bigEndian, cs[i..], ready) == Polled(h.clients + tail.clients, h.events + tail.events);
    assert cs'[..i'] == cs[..i] + h.clients && cs'[i'..] == cs[i + 1..];
    ConcatAssoc(cs[..i], h.clients, tail.clients);
    ConcatAssoc(events, h.events, tail.events);
  }

  lemma PassAtStart(bigEndian: bool, cs: seq<Client>, events: seq<Event>, ready: map<int, seq<Byte>>)
    ensures var p := Poll(bigEndian, cs, ready);
            Pass(bigEndian, cs, events, 0, ready) == Polled(p.clients, events + p.events)
  {
    assert cs[0..] == cs && cs[..0] == [];
    assert [] + Poll(bigEndian, cs, ready).clients == Poll(bigEndian, cs, ready).clients;
  }

  lemma PassAtEnd(bigEndian: bool, cs: seq<Client>, events: seq<Event>, ready: map<int, seq<Byte>>)
    ensures Pass(bigEndian, cs, events, |cs|, ready) == Polled(cs, events)
  {
    assert cs[|cs|..] == [] && cs[..|cs|] == cs;
  }

  function DropAt<T>(s: seq<T>, i: nat): seq<T>
    requires i < |s|
  {
    s[..i] + s[i + 1..]
  }

  function Fds(cs: seq<Client>): set<int> {
    set c | c in cs :: c.fd
  }

  ghost predicate DistinctFds(cs: seq<Client>) {
    forall i, j {:trigger cs[i].fd, cs[j].fd} :: 0 <= i < j < |cs| ==> cs[i].fd != cs[j].fd
  }

  // ---------------------------------------------------------------- the list

  ghost function Buffers(nodes: seq<ClientFD>): set<array<Byte>> {
    set n | n in nodes :: n.bufferedData
  }

  // The pNext pointers chain these nodes in this order.
  ghost predicate Linked(head: ClientFD?, nodes: seq<ClientFD>)
    reads nodes`pNext
  {
    && head == (if nodes == [] then null else nodes[0])
    && forall i {:trigger nodes[i].pNext} :: 0 <= i < |nodes| ==>
         nodes[i].pNext == if i + 1 < |nodes| then nodes[i + 1] else null
  }

  ghost predicate Separate(nodes: seq<ClientFD>) {
    forall i, j {:trigger nodes[i].bufferedData, nodes[j].bufferedData} ::
      0 <= i < j < |nodes| ==> nodes[i].bufferedData != nodes[j].bufferedData
  }

  ghost predicate Among(nodes: seq<ClientFD>, all: seq<ClientFD>) {
    forall i :: 0 <= i < |nodes| ==> nodes[i] in all
  }

  ghost predicate Holds(nodes: seq<ClientFD>, clients: seq<Client>)
    reads nodes`expectedDataLength, nodes`bufferedDataLength, Buffers(nodes)
  {
    && |clients| == |nodes|
    && forall i {:trigger nodes[i].State()} {:trigger nodes[i].Valid()} {:trigger clients[i]} ::
         0 <= i < |nodes| ==> nodes[i].Valid() && nodes[i].State() == clients[i]
  }

  // The chain is `nodes`, which hold the values `clients`; the descriptor set is the listeners
  // and the listed descriptors, and no descriptor is listed twice.
  ghost predicate ListOk(head: ClientFD?, fds: set<int>, listeners: set<int>, nodes: seq<ClientFD>,
                         clients: seq<Client>)
    reads nodes`pNext, nodes`expectedDataLength, nodes`bufferedDataLength, Buffers(nodes)
  {
    && Linked(head, nodes) && Separate(nodes) && Holds(nodes, clients)
    && DistinctFds(clients) && listeners !! Fds(clients) && fds == listeners + Fds(clients)
  }

  // What the list says of the node at place i.
  lemma NodeAt(head: ClientFD?, fds: set<int>, listeners: set<int>, nodes: seq<ClientFD>, clients: seq<Client>, i: nat)
    requires ListOk(head, fds, listeners, nodes, clients) && i < |nodes|
    ensures |nodes| == |clients| && nodes[i].fd == clients[i].fd && clients[i].fd in Fds(clients)
    ensures nodes[i].pNext == if i + 1 < |nodes| then nodes[i + 1] else null
    ensures head == nodes[0] && (i > 0 ==> nodes[i] != nodes[0])
  {
    assert i > 0 ==> nodes[0].bufferedData != nodes[i].bufferedData;
    assert nodes[i].State() == clients[i];
  }

  lemma DropNode(nodes: seq<ClientFD>, clients: seq<Client>, i: nat)
    requires i < |nodes| && Separate(nodes) && Holds(nodes, clients) && DistinctFds(clients)
    ensures Separate(DropAt(nodes, i)) && Holds(DropAt(nodes, i), DropAt(clients, i)) && DistinctFds(DropAt(clients, i))
    ensures Fds(DropAt(clients, i)) == Fds(clients) - {clients[i].fd}
  {
    var ns, cs := DropAt(nodes, i), DropAt(clients, i);
    forall j | 0 <= j < |ns|
      ensures ns[j].Valid() && ns[j].State() == cs[j]
    {
      var k := if j < i then j else j + 1;
      assert ns[j] == nodes[k] && cs[j] == clients[k];
    }
    FdsWithout(clients, i);
  }

  // The list without the node at place i, once that is out of the chain.
  lemma DropFromList(head: ClientFD?, fds: set<int>, listeners: set<int>, nodes: seq<ClientFD>, clients: seq<Client>,
                     i: nat)
    requires Separate(nodes) && Holds(nodes, clients) && DistinctFds(clients) && i < |nodes|
    requires listeners !! Fds(clients) && fds == listeners + Fds(clients) && clients[i].fd in Fds(clients)
    requires Linked(head, DropAt(nodes, i))
    ensures ListOk(head, fds - {clients[i].fd}, listeners, DropAt(nodes, i), DropAt(clients, i))
  {
    DropNode(nodes, clients, i);
    hide Linked, Separate, Holds, DistinctFds, Fds;
  }

  lemma AppendNode(nodes: seq<ClientFD>, clients: seq<Client>, n: ClientFD)
    requires Separate(nodes) && Holds(nodes, clients) && DistinctFds(clients)
    requires n.Valid() && n.fd !in Fds(clients) && n.bufferedData !in Buffers(nodes)
    ensures Separate(nodes + [n]) && Holds(nodes + [n], clients + [n.State()]) && DistinctFds(clients + [n.State()])
    ensures Fds(clients + [n.State()]) == Fds(clients) + {n.fd}
  {
    FdsExtended(clients, n.State());
    var ns, cs := nodes + [n], clients + [n.State()];
    forall j | 0 <= j < |ns|
      ensures ns[j].Valid() && ns[j].State() == cs[j]
    {
      assert j < |nodes| ==> ns[j] == nodes[j] && cs[j] == clients[j];
    }
    assert forall j {:trigger ns[j].bufferedData} :: 0 <= j < |nodes| ==> ns[j].bufferedData in Buffers(nodes);
  }

  // The list with a new node, once that is in the chain.
  lemma AppendToList(head: ClientFD?, fds: set<int>, listeners: set<int>, nodes: seq<ClientFD>, clients: seq<Client>,
                     n: ClientFD)
    requires Separate(nodes) && Holds(nodes, clients) && DistinctFds(clients)
    requires listeners !! Fds(clients) && fds == listeners + Fds(clients)
    requires n.Valid() && n.fd !in fds && n.bufferedData !in Buffers(nodes) && Linked(head, nodes + [n])
    ensures ListOk(head, fds + {n.fd}, listeners, nodes + [n], clients + [n.State()])
  {
    AppendNode(nodes, clients, n);
    hide Linked, Separate, Holds, DistinctFds, Fds;
  }

  lemma NodeDiffers(nodes: seq<ClientFD>, i: nat)
    requires Separate(nodes) && i < |nodes|
    ensures forall j :: 0 <= j < |nodes| && j != i ==> nodes[j] != nodes[i]
  {
    forall j | 0 <= j < |nodes| && j != i
      ensures nodes[j] != nodes[i]
    {
      assert nodes[j].bufferedData != nodes[i].bufferedData;
    }
  }

  lemma ReplaceAt<T>(s: seq<T>, i: nat, xs: seq<T>)
    requires i < |s| && |xs| <= 1
    ensures s[..i] + xs + s[i + 1..] == if xs == [] then DropAt(s, i) else s[i := xs[0]]
    ensures s[i := s[i]] == s
  {
  }

  class NetComm {
    const bigEndian: bool
    const listeners: set<int>    // the UDP, TCP and domain sockets
    var clientFDList_: ClientFD?
    var masterFDSet_: set<int>
    var events: seq<Event>       // the calls made to the layers above
    ghost var nodes: seq<ClientFD>
    ghost var clients: seq<Client>

    ghost predicate Valid()
      reads this, nodes, Buffers(nodes)
    {
      ListOk(clientFDList_, masterFDSet_, listeners, nodes, clients)
    }

    // The node behind prev is taken out of the chain.
    method Unlink(prev: ClientFD, node: ClientFD, ghost i: nat)
      requires Separate(nodes) && Linked(clientFDList_, nodes) && Holds(nodes, clients) && 0 < i < |nodes|
      requires prev == nodes[i - 1] && node == nodes[i]
      modifies prev`pNext
      ensures Linked(clientFDList_, DropAt(nodes, i)) && Holds(nodes, clients)
      ensures prev.pNext == old(node.pNext)
    {
      NodeDiffers(nodes, i - 1);
      hide Separate;
      prev.pNext := node.pNext;
      ghost var ns := DropAt(nodes, i);
      forall j | 0 <= j < |ns|
        ensures ns[j].pNext == if j + 1 < |ns| then ns[j + 1] else null
      {
        var k := if j < i then j else j + 1;
        assert ns[j] == nodes[k] && old(nodes[k].pNext) == if k + 1 < |nodes| then nodes[k + 1] else null;
      }
    }

    // The head is taken out of the chain.
    method UnlinkHead()
      requires Linked(clientFDList_, nodes) && Holds(nodes, clients) && nodes != []
      modifies this`clientFDList_
      ensures Linked(clientFDList_, DropAt(nodes, 0)) && Holds(nodes, clients)
      ensures clientFDList_ == if |nodes| > 1 then nodes[1] else null
    {
      clientFDList_ := clientFDList_.pNext;
      ghost var ns := DropAt(nodes, 0);
      forall j | 0 <= j < |ns|
        ensures ns[j].pNext == if j + 1 < |ns| then ns[j + 1] else null
      {
        assert ns[j] == nodes[j + 1];
      }
    }

    // The descriptor of the node at place i, which is out of the chain, is cleared.
    method Clear(fd: int, ghost i: nat)
      requires Separate(nodes) && Holds(nodes, clients) && DistinctFds(clients) && i < |nodes| && fd == clients[i].fd
      requires listeners !! Fds(clients) && masterFDSet_ == listeners + Fds(clients) && fd in Fds(clients)
      requires Linked(clientFDList_, DropAt(nodes, i))
      modifies this`masterFDSet_, this`nodes, this`clients
      ensures Valid() && nodes == DropAt(old(nodes), i) && clients == DropAt(old(clients), i)
    {
      hide Linked, Separate, DistinctFds, Fds;
      DropFromList(clientFDList_, masterFDSet_, listeners, nodes, clients, i);
      masterFDSet_ := masterFDSet_ - {fd};
      nodes, clients := DropAt(nodes, i), DropAt(clients, i);
    }

    // destroyCurrentClient for the node under the loop's two pointers
    method DestroyCurrentClient(FDPtr: ClientFD, prevFDPtr: ClientFD, ghost i: nat)
      returns (FDPtr': ClientFD?, prevFDPtr': ClientFD?)
      requires Valid() && i < |nodes| && FDPtr == nodes[i]
      requires prevFDPtr == if i == 0 then FDPtr else nodes[i - 1]
      modifies this, nodes`pNext
      ensures Valid()
      ensures nodes == DropAt(old(nodes), i) && clients == DropAt(old(clients), i)
      ensures Among(nodes, old(nodes))
      ensures events == old(events)
      ensures FDPtr' == (if i < |nodes| then nodes[i] else null)
      ensures prevFDPtr' == (if i == 0 then FDPtr' else nodes[i - 1])
    {
      NodeAt(clientFDList_, masterFDSet_, listeners, nodes, clients, i);
      hide Linked, Separate, Holds, DistinctFds, Fds;
      if FDPtr == clientFDList_ {
        assert i == 0;
        UnlinkHead();
        prevFDPtr' := clientFDList_;
        FDPtr' := clientFDList_;
      } else {
        Unlink(prevFDPtr, FDPtr, i);
        prevFDPtr' := prevFDPtr;
        FDPtr' := prevFDPtr.pNext;
      }
      Clear(FDPtr.fd, i);
    }

    // One successful read of a connection, processed.
    method ReadFrom(FDPtr: ClientFD, input: seq<Byte>, ghost i: nat)
      requires Valid() && i < |nodes| && FDPtr == nodes[i] && input != []
      modifies this`events, this`clients, FDPtr`expectedDataLength, FDPtr`bufferedDataLength, FDPtr.bufferedData
      ensures Valid()
      ensures var o := Feed(bigEndian, old(clients)[i].partial, input);
              var fd := old(clients)[i].fd;
              && clients == old(clients)[i := Client(fd, o.partial)]
              && events == old(events) + ([Active(fd)] + Inputs(fd, o.delivered))
    {
      hide Linked, DistinctFds, Fds, Feed, Inputs;
      ghost var ns, cs := nodes, clients;
      var fd := FDPtr.fd;
      assert FDPtr.State() == cs[i];
      var delivered := FDPtr.Receive(bigEndian, input);
      events := events + ([Active(fd)] + Inputs(fd, delivered));
      forall j | 0 <= j < |ns| && j != i
        ensures ns[j].Valid() && ns[j].State() == cs[j]
      {
        assert ns[j].bufferedData != ns[i].bufferedData;
        assert old(ns[j].Valid()) && old(ns[j].State()) == cs[j];
      }
      FdsUpdated(cs, i, FDPtr.State());
      clients := cs[i := FDPtr.State()];
    }

    // A call to the layers above
    method Notify(event: Event)
      requires Valid()
      modifies this`events
      ensures Valid() && events == old(events) + [event]
    {
      hide Linked, Separate, DistinctFds, Fds;
      events := events + [event];
    }

    // The loop body: visit the connection under the pointers and move them on.
    method Visit(FDPtr: ClientFD, prevFDPtr: ClientFD, ready: map<int, seq<Byte>>, ghost i: nat)
      returns (FDPtr': ClientFD?, prevFDPtr': ClientFD?, ghost i': nat)
      requires Valid() && i < |nodes| && FDPtr == nodes[i]
      requires prevFDPtr == if i == 0 then FDPtr else nodes[i - 1]
      modifies this, nodes`pNext, FDPtr`expectedDataLength, FDPtr`bufferedDataLength, FDPtr.bufferedData
      ensures Valid() && Among(nodes, old(nodes))
      ensures var h := PollOne(bigEndian, old(clients)[i], ready);
              && clients == old(clients)[..i] + h.clients + old(clients)[i + 1..]
              && events == old(events) + h.events
              && i' == i + |h.clients|
      ensures FDPtr' == (if i' < |nodes| then nodes[i'] else null)
      ensures FDPtr' != null ==> prevFDPtr' == (if i' == 0 then FDPtr' else nodes[i' - 1])
    {
      hide ListOk, Fds, Feed, Inputs;
      NodeAt(clientFDList_, masterFDSet_, listeners, nodes, clients, i);
      var fd := FDPtr.fd;
      ReplaceAt(clients, i, PollOne(bigEndian, clients[i], ready).clients);
      if fd in ready && ready[fd] == [] {
        Notify(Shutdown(fd));
        FDPtr', prevFDPtr' := DestroyCurrentClient(FDPtr, prevFDPtr, i);
        i' := i;
      } else {
        if fd in ready {
          ReadFrom(FDPtr, ready[fd], i);
          NodeAt(clientFDList_, masterFDSet_, listeners, nodes, clients, i);
        } else {
          assert events + [] == events;
        }
        prevFDPtr', FDPtr' := FDPtr, FDPtr.pNext;
        i' := i + 1;
      }
    }

    // processIncomingData over the list: read from every ready connection
    method ProcessIncomingData(ready: map<int, seq<Byte>>)
      requires Valid()
      modifies this, nodes, Buffers(nodes)
      ensures Valid()
      ensures clients == Poll(bigEndian, old(clients), ready).clients
      ensures events == old(events) + Poll(bigEndian, old(clients), ready).events
    {
      hide ListOk, PollOne, Pass, Poll;
      var FDPtr := clientFDList_;
      var prevFDPtr := FDPtr;
      ghost var i := 0;
      ghost var goal := Pass(bigEndian, clients, events, 0, ready);
      Shape();
      PassAtStart(bigEndian, clients, events, ready);
      while FDPtr != null
        invariant Valid() && 0 <= i <= |nodes| == |clients|
        invariant Among(nodes, old(nodes))
        invariant FDPtr == if i < |nodes| then nodes[i] else null
        invariant FDPtr != null ==> prevFDPtr == if i == 0 then FDPtr else nodes[i - 1]
        invariant Pass(bigEndian, clients, events, i, ready) == goal
        decreases |nodes| - i
      {
        assert FDPtr in nodes && FDPtr in old(nodes) && FDPtr.bufferedData in Buffers(old(nodes));
        ghost var cs, es, k := clients, events, i;
        Shape();
        FDPtr, prevFDPtr, i := Visit(FDPtr, prevFDPtr, ready, i);
        Shape();
        PassStep(bigEndian, cs, es, k, ready);
      }
      Shape();
      PassAtEnd(bigEndian, clients, events, ready);
    }

    lemma Shape()
      requires Valid()
      ensures clientFDList_ == (if nodes == [] then null else nodes[0]) && |nodes| == |clients|
    {
    }

    // Walk to the last node and hang the new one behind it.
    method LinkLast(newFD: ClientFD)
      requires Linked(clientFDList_, nodes) && newFD.pNext == null && newFD !in nodes
      requires forall j :: 0 <= j < |nodes| - 1 ==> nodes[j] != nodes[|nodes| - 1]
      modifies this`clientFDList_, nodes`pNext
      ensures Linked(clientFDList_, nodes + [newFD])
    {
      if clientFDList_ != null {
        var fdPtr: ClientFD := clientFDList_;
        ghost var i := 0;
        while fdPtr.pNext != null
          invariant i < |nodes| && fdPtr == nodes[i]
          decreases |nodes| - i
        {
          fdPtr := fdPtr.pNext;
          i := i + 1;
        }
        fdPtr.pNext := newFD;
      } else {
        clientFDList_ := newFD;
      }
    }

    // addFdToClientList: the descriptor is new, the connection goes to the end of the list
    method AddFdToClientList(fd: int)
      requires Valid() && fd !in masterFDSet_
      modifies this, nodes`pNext
      ensures Valid()
      ensures clients == old(clients) + [Client(fd, Partial([], 0))]
      ensures events == old(events) + [Active(fd)]
    {
      hide Linked, Separate, DistinctFds, Fds;
      ghost var ns, cs, fds := nodes, clients, masterFDSet_;
      if ns != [] {
        NodeDiffers(ns, |ns| - 1);
      }
      var newFD := new ClientFD(fd);
      LinkLast(newFD);
      masterFDSet_, events := masterFDSet_ + {fd}, events + [Active(fd)];
      nodes, clients := ns + [newFD], cs + [newFD.State()];
      assert Holds(ns, cs);
      AppendToList(clientFDList_, fds, listeners, ns, cs, newFD);
      hide ListOk, Holds;
    }

    // destroyCurrentClient by descriptor
    method DestroyClient(fd: int)
      requires Valid()
      modifies this, nodes`pNext
      ensures Valid() && events == old(events)
      ensures clients == Without(old(clients), fd)
    {
      var FDPtr := clientFDList_;
      var prevFDPtr := FDPtr;
      ghost var i := 0;
      while FDPtr != null && FDPtr.fd != fd
        invariant i <= |nodes| && FDPtr == if i < |nodes| then nodes[i] else null
        invariant FDPtr != null ==> prevFDPtr == if i == 0 then FDPtr else nodes[i - 1]
        invariant forall j :: 0 <= j < i ==> clients[j].fd != fd
        decreases |nodes| - i
      {
        prevFDPtr := FDPtr;
        FDPtr := FDPtr.pNext;
        i := i + 1;
      }
      WithoutAt(clients, fd, i);
      if FDPtr != null {
        var _, _ := DestroyCurrentClient(FDPtr, prevFDPtr, i);
      }
    }
  }

  function Without(cs: seq<Client>, fd: int): seq<Client> {
    if cs == [] then [] else (if cs[0].fd == fd then [] else [cs[0]]) + Without(cs[1..], fd)
  }

  lemma {:induction false} WithoutAt(cs: seq<Client>, fd: int, i: nat)
    requires i <= |cs| && DistinctFds(cs)
    requires (forall j :: 0 <= j < i ==> cs[j].fd != fd) && (i < |cs| ==> cs[i].fd == fd)
    ensures Without(cs, fd) == if i < |cs| then DropAt(cs, i) else cs
  {
    if cs != [] {
      if i == 0 {
        if 1 < |cs| {
          assert forall j :: 0 <= j < |cs| - 1 ==> cs[1..][j] == cs[j + 1];
        }
        WithoutAt(cs[1..], fd, |cs| - 1);
      } else {
        WithoutAt(cs[1..], fd, i - 1);
      }
    }
  }

  lemma FdsWithout(cs: seq<Client>, i: nat)
    requires i < |cs| && DistinctFds(cs)
    ensures Fds(DropAt(cs, i)) == Fds(cs) - {cs[i].fd}
  {
    var ds := DropAt(cs, i);
    forall fd | fd in Fds(cs) - {cs[i].fd}
      ensures fd in Fds(ds)
    {
      var j :| 0 <= j < |cs| && cs[j].fd == fd;
      assert ds[if j < i then j else j - 1] == cs[j];
    }
  }

  lemma FdsUpdated(cs: seq<Client>, i: nat, c: Client)
    requires i < |cs| && cs[i].fd == c.fd
    ensures Fds(cs[i := c]) == Fds(cs)
    ensures DistinctFds(cs) ==> DistinctFds(cs[i := c])
  {
    var ds := cs[i := c];
    forall fd | fd in Fds(cs)
      ensures fd in Fds(ds)
    {
      var j :| 0 <= j < |cs| && cs[j].fd == fd;
      assert ds[j].fd == fd;
    }
    forall fd | fd in Fds(ds)
      ensures fd in Fds(cs)
    {
      var j :| 0 <= j < |ds| && ds[j].fd == fd;
      assert cs[j].fd == fd;
    }
  }

  lemma FdsExtended(cs: seq<Client>, c: Client)
    ensures Fds(cs + [c]) == Fds(cs) + {c.fd}
    ensures DistinctFds(cs) && c.fd !in Fds(cs) ==> DistinctFds(cs + [c])
  {
    assert c in cs + [c];
    forall d | d in cs
      ensures d in cs + [c]
    {
    }
  }

  // ---------------------------------------------------------------- one stream among many

  function PartialOf(cs: seq<Client>, fd: int): Option<Partial> {
    if cs == [] then None
    else if cs[0].fd == fd then Some(cs[0].partial)
    else PartialOf(cs[1..], fd)
  }

  function PayloadOf(fd: int, e: Event): seq<seq<Byte>> {
    match e
    case Input(fd', payload) => if fd' == fd then [payload] else []
    case _ => []
  }

  // The payloads handed on from one connection, in order.
  function PayloadsOf(fd: int, events: seq<Event>): seq<seq<Byte>> {
    if events == [] then [] else PayloadOf(fd, events[0]) + PayloadsOf(fd, events[1..])
  }

  lemma {:induction false} PayloadsOfAppend(fd: int, es: seq<Event>, fs: seq<Event>)
    ensures PayloadsOf(fd, es + fs) == PayloadsOf(fd, es) + PayloadsOf(fd, fs)
  {
    if es == [] {
      assert es + fs == fs;
    } else {
      PayloadsOfAppend(fd, es[1..], fs);
      ConcatAssoc(PayloadOf(fd, es[0]), PayloadsOf(fd, es[1..]), PayloadsOf(fd, fs));
      assert (es + fs)[0] == es[0] && (es + fs)[1..] == es[1..] + fs;
    }
  }

  lemma {:induction false} PayloadsOfInputs(fd: int, fd': int, ps: seq<seq<Byte>>)
    ensures PayloadsOf(fd, Inputs(fd', ps)) == if fd == fd' then ps else []
  {
    if ps != [] {
      PayloadsOfInputs(fd, fd', ps[1..]);
      assert Inputs(fd', ps)[1..] == Inputs(fd', ps[1..]);
    }
  }

  // What is kept of a connection (nothing once it is closed) and the payloads handed on.
  datatype Fate = Fate(kept: Option<Partial>, payloads: seq<seq<Byte>>)

  // What one pass does to a connection that is the only one.
  function Alone(bigEndian: bool, c: Option<Partial>, ready: map<int, seq<Byte>>, fd: int): Fate {
    if c == None || fd !in ready then Fate(c, [])
    else if ready[fd] == [] then Fate(None, [])
    else
      var o := Feed(bigEndian, c.value, ready[fd]);
      Fate(Some(o.partial), o.delivered)
  }

  lemma PollOneAlone(bigEndian: bool, c: Client, ready: map<int, seq<Byte>>, fd: int)
    ensures var h := PollOne(bigEndian, c, ready);
            Fate(PartialOf(h.clients, fd), PayloadsOf(fd, h.events)) == Alone(bigEndian, PartialOf([c], fd), ready, fd)
  {
    var h := PollOne(bigEndian, c, ready);
    assert [c][1..] == [] && (h.clients != [] ==> h.clients[1..] == []);
    if c.fd in ready {
      if ready[c.fd] == [] {
        assert h.events[1..] == [] && PartialOf(h.clients, fd) == None;
        assert PayloadsOf(fd, h.events) == [] + PayloadsOf(fd, []) == [];
      } else {
        var o := Feed(bigEndian, c.partial, ready[c.fd]);
        assert h.events[1..] == Inputs(c.fd, o.delivered);
        PayloadsOfInputs(fd, c.fd, o.delivered);
        assert PayloadsOf(fd, h.events) == [] + PayloadsOf(fd, h.events[1..]) == PayloadsOf(fd, h.events[1..]);
      }
    }
  }

  function FdList(cs: seq<Client>): seq<int> {
    if cs == [] then [] else [cs[0].fd] + FdList(cs[1..])
  }

  lemma {:induction false} FdListContents(cs: seq<Client>)
    ensures |FdList(cs)| == |cs| && forall i :: 0 <= i < |cs| ==> FdList(cs)[i] == cs[i].fd
  {
    if cs != [] {
      FdListContents(cs[1..]);
    }
  }

  lemma {:induction false} NotListed(cs: seq<Client>, fd: int)
    requires fd !in FdList(cs)
    ensures PartialOf(cs, fd) == None
  {
    if cs != [] {
      assert FdList(cs)[0] == cs[0].fd && FdList(cs)[1..] == FdList(cs[1..]);
      NotListed(cs[1..], fd);
    }
  }

  lemma DistinctHead(cs: seq<Client>)
    requires cs != []
    ensures DistinctFds(cs) <==> cs[0].fd !in FdList(cs[1..]) && DistinctFds(cs[1..])
  {
    FdListContents(cs[1..]);
    assert forall i :: 0 <= i < |cs[1..]| ==> cs[1..][i] == cs[i + 1];
    if cs[0].fd !in FdList(cs[1..]) && DistinctFds(cs[1..]) {
      forall i, j | 0 <= i < j < |cs|
        ensures cs[i].fd != cs[j].fd
      {
        assert cs[j] == cs[1..][j - 1] && FdList(cs[1..])[j - 1] == cs[j].fd;
        if i > 0 {
          assert cs[i] == cs[1..][i - 1];
        }
      }
    }
  }

  // A pass treats each connection as if it were the only one.
  lemma {:induction false} PollTreatsAlone(bigEndian: bool, cs: seq<Client>, ready: map<int, seq<Byte>>, fd: int)
    requires DistinctFds(cs)
    ensures var p := Poll(bigEndian, cs, ready);
            Fate(PartialOf(p.clients, fd), PayloadsOf(fd, p.events)) == Alone(bigEndian, PartialOf(cs, fd), ready, fd)
  {
    if cs != [] {
      var h, tail := PollOne(bigEndian, cs[0], ready), Poll(bigEndian, cs[1..], ready);
      DistinctHead(cs);
      PollTreatsAlone(bigEndian, cs[1..], ready, fd);
      PollOneAlone(bigEndian, cs[0], ready, fd);
      PayloadsOfAppend(fd, h.events, tail.events);
      PartialOfAppend(h.clients, tail.clients, fd);
      PartialOfAppend([cs[0]], cs[1..], fd);
      assert [cs[0]] + cs[1..] == cs;
      if cs[0].fd == fd {
        NotListed(cs[1..], fd);
      }
    }
  }

  lemma {:induction false} PartialOfAppend(cs: seq<Client>, ds: seq<Client>, fd: int)
    ensures PartialOf(cs + ds, fd) == if PartialOf(cs, fd) == None then PartialOf(ds, fd) else PartialOf(cs, fd)
  {
    if cs == [] {
      assert cs + ds == ds;
    } else {
      PartialOfAppend(cs[1..], ds, fd);
      assert (cs + ds)[0] == cs[0] && (cs + ds)[1..] == cs[1..] + ds;
    }
  }

  function Kept(fds: seq<int>, ready: map<int, seq<Byte>>): seq<int> {
    if fds == [] then []
    else (if fds[0] in ready && ready[fds[0]] == [] then [] else [fds[0]]) + Kept(fds[1..], ready)
  }

  lemma {:induction false} KeptAreListed(fds: seq<int>, ready: map<int, seq<Byte>>, fd: int)
    requires fd !in fds
    ensures fd !in Kept(fds, ready)
  {
    if fds != [] {
      KeptAreListed(fds[1..], ready, fd);
    }
  }

  // What a pass leaves of one connection has its descriptor.
  lemma PollOneKeeps(bigEndian: bool, c: Client, ready: map<int, seq<Byte>>)
    ensures var h := PollOne(bigEndian, c, ready).clients;
            if c.fd in ready && ready[c.fd] == [] then h == [] else |h| == 1 && h[0].fd == c.fd
  {
    hide Feed;
  }

  // A pass keeps, in order, exactly the connections that were not ready or whose read succeeded.
  lemma {:induction false} PollKeeps(bigEndian: bool, cs: seq<Client>, ready: map<int, seq<Byte>>)
    ensures FdList(Poll(bigEndian, cs, ready).clients) == Kept(FdList(cs), ready)
    ensures DistinctFds(cs) ==> DistinctFds(Poll(bigEndian, cs, ready).clients)
  {
    hide PollOne, DistinctFds;
    if cs == [] {
      assert FdList([]) == [] && Kept([], ready) == [];
    } else {
      var h, tail := PollOne(bigEndian, cs[0], ready), Poll(bigEndian, cs[1..], ready);
      PollKeeps(bigEndian, cs[1..], ready);
      PollOneKeeps(bigEndian, cs[0], ready);
      DistinctHead(cs);
      if DistinctFds(cs) {
        KeptAreListed(FdList(cs[1..]), ready, cs[0].fd);
      }
      if h.clients == [] {
        assert h.clients + tail.clients == tail.clients;
      } else {
        assert (h.clients + tail.clients)[1..] == tail.clients;
        DistinctHead(h.clients + tail.clients);
      }
    }
  }

  // ---------------------------------------------------------------- runs of passes

  function PollAll(bigEndian: bool, cs: seq<Client>, rounds: seq<map<int, seq<Byte>>>): Polled
    decreases |rounds|
  {
    if rounds == [] then Polled(cs, [])
    else
      var p := Poll(bigEndian, cs, rounds[0]);
      var p' := PollAll(bigEndian, p.clients, rounds[1..]);
      Polled(p'.clients, p.events + p'.events)
  }

  function ReadsOf(fd: int, rounds: seq<map<int, seq<Byte>>>): seq<seq<Byte>> {
    if rounds == [] then []
    else (if fd in rounds[0] then [rounds[0][fd]] else []) + ReadsOf(fd, rounds[1..])
  }

  lemma {:induction false} PollAllFeeds(bigEndian: bool, cs: seq<Client>, fd: int, rounds: seq<map<int, seq<Byte>>>)
    requires DistinctFds(cs) && PartialOf(cs, fd).Some?
    requires forall r :: r in rounds && fd in r ==> r[fd] != []
    ensures var p := PollAll(bigEndian, cs, rounds);
            var o := FeedAll(bigEndian, PartialOf(cs, fd).value, ReadsOf(fd, rounds));
            PartialOf(p.clients, fd) == Some(o.partial) && PayloadsOf(fd, p.events) == o.delivered
    decreases |rounds|
  {
    if rounds != [] {
      var p := Poll(bigEndian, cs, rounds[0]);
      PollTreatsAlone(bigEndian, cs, rounds[0], fd);
      PollKeeps(bigEndian, cs, rounds[0]);
      PollAllFeeds(bigEndian, p.clients, fd, rounds[1..]);
      PayloadsOfAppend(fd, p.events, PollAll(bigEndian, p.clients, rounds[1..]).events);
      if fd in rounds[0] {
        assert ReadsOf(fd, rounds)[1..] == ReadsOf(fd, rounds[1..]);
      } else {
        assert ReadsOf(fd, rounds) == ReadsOf(fd, rounds[1..]);
      }
    }
  }

  // Over any run of the polling loop, however the connections are interleaved, a connection
  // at a frame boundary that stays open hands on exactly the payloads its peer sent if and
  // only if its own reads end at safe cuts of its own stream.
  lemma StreamsDoNotDisturbEachOther(bigEndian: bool, cs: seq<Client>, fd: int, rounds: seq<map<int, seq<Byte>>>,
                                     ps: seq<seq<Byte>>)
    requires DistinctFds(cs) && PartialOf(cs, fd).Some? && PartialOf(cs, fd).value.expected == 0
    requires forall r :: r in rounds && fd in r ==> r[fd] != []
    requires AllSendable(ps) && Joined(ReadsOf(fd, rounds)) == Stream(bigEndian, ps)
    ensures PayloadsOf(fd, PollAll(bigEndian, cs, rounds).events) == ps <==> SafeReads(ps, 0, ReadsOf(fd, rounds))
  {
    PollAllFeeds(bigEndian, cs, fd, rounds);
    DeliveredExactlyWhenSafe(bigEndian, PartialOf(cs, fd).value, ps, ReadsOf(fd, rounds));
  }
}
